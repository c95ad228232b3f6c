/**
 Inputs on which the computed clauses do not mean what the action means, one for each condition that the
 theorems about compilation and histories rely on.  Those about the walk are in WalkFindings.
 */
module Findings {
  import opened Names
  import opened Logic
  import opened ClauseOps
  import opened Updates
  import opened Hiding
  import opened Images
  import opened Substitution
  import opened Actions
  import opened Atoms
  import opened Compiler
  import opened Histories
  import B = Backgrounds

  // ----- one name for two past values -----

  const X := Id("x", 0)

  const PAST_X := Sym(Skolem, Id("__x", 0))

  /** The update of x := n. */
  function SetX(n: int): Update
  {
    Update([X], Fact(Op(Equals, App(NewSym(X), []), Lit(n))), BOT)
  }

  const TWICE := [Stepped(SetX(1)), Stepped(SetX(2))]

  ghost function Holding(n: int): State { (i: Id) => ConstTable(n) }

  /** s with x set to n. */
  ghost function With(s: State, n: int): State { (i: Id) => if i == X then ConstTable(n) else s(i) }

  lemma SetXBound(n: int)
    ensures Bound(SetX(n)) && Used(SetX(n).tr) == {NewSym(X)}
  {
    assert SymsAll([]) == {};
    assert Syms(App(NewSym(X), [])) == {NewSym(X)};
    assert Syms(Op(Equals, App(NewSym(X), []), Lit(n))) == {NewSym(X)};
  }

  lemma SetXStep(n: int, s: State)
    ensures Step(SetX(n), s, With(s, n))
  {
    var t := With(s, n);
    var w := Mk(s, s, t);
    forall env: Env
      ensures Eval(Op(Equals, App(NewSym(X), []), Lit(n)), w, env) != 0
    {
      assert Eval(App(NewSym(X), []), w, env) == w(NewSym(X))([]);
      assert w(NewSym(X)) == ConstTable(n);
    }
    assert Holds(SetX(n).tr, w) && SameProgram(w, w);
  }

  /** With no clause that uses the name, the past value of x is called __x. */
  lemma PastIsX(p: Clauses, n: int)
    requires forall y :: y in Used(p) ==> y == BaseSym(X)
    ensures PastMap(p, SetX(n)) == map[BaseSym(X) := PAST_X]
    ensures forall y :: y in Used(ForwardImage(p, SetX(n))) ==> y == BaseSym(X) || y == PAST_X
  {
    hide Used, Rename, Conjoin;
    var u := SetX(n);
    var c := Conjoin(p, u.tr);
    SetXBound(n);
    ConjoinSyms(p, u.tr);
    assert Spell(BaseSym(X)) == "x" && Spell(NewSym(X)) == "new_x";
    assert "__x" !in UsedNames(c);
    assert BaseSyms([X]) == [BaseSym(X)];
    RenameOne(BaseSym(X), UsedNames(c));
    RenameUsed(c, PastMap(p, u));
    RenameUsed(Rename(c, PastMap(p, u)), Unprime(u.mod));
    forall y | y in Used(c)
      ensures Lookup(Unprime(u.mod), Lookup(PastMap(p, u), y)) == PAST_X ||
              Lookup(Unprime(u.mod), Lookup(PastMap(p, u), y)) == BaseSym(X)
    {
      LookupUnprime(u.mod, Lookup(PastMap(p, u), y));
    }
  }

  lemma RenameOne(x: Sym, used: set<string>)
    requires Spell(x) == "x" && "__x" !in used && x.id.arity == 0
    ensures RenameAll("__", [x], used).m == map[x := PAST_X]
  {
    assert [x][..0] == [];
    assert "__" + "x" == "__x";
    assert Fresh("__", "x", used) == "__x";
  }

  lemma ConjoinSyms(p: Clauses, d: Clauses)
    requires forall y :: y in Used(d) ==> !y.kind.Skolem?
    ensures Used(Conjoin(p, d)) <= Used(p) + Used(d)
  {
    hide Used, Rename;
    var m := DistinctMap(d, p);
    AndUsed(p, Rename(d, m));
    RenameUsed(d, m);
    forall y | y in Used(d)
      ensures Lookup(m, y) == y
    {
      LookupOut(m, y);
    }
  }

  /** x := 1 and then x := 2, from anywhere: both the value before the first step and the value after it
      are called __x, so a run that starts with x different from 1 is a run and is never read back. */
  lemma HistoryReusesNames()
    ensures Events(TWICE)
    ensures exists run: seq<State> :: IsRun(TOP, TWICE, run) && !ReadBack(TOP, TWICE, run)
  {
    hide Used, ForwardImage, PastMap, Step, IsRun, Track;
    SetXBound(1);
    SetXBound(2);
    var s0 := Holding(7);
    var s1 := With(s0, 1);
    var s2 := With(s1, 2);
    var run := [s0, s1, s2];
    RunTwice(s0, s1, s2);
    TwiceMaps();
    TwiceNames();
    assert run[0](X)([]) == 7 && run[1](X)([]) == 1;
    assert !Coincident(Track(TOP, TWICE).maps, run);
    forall v: Val
      ensures Decodes(Track(TOP, TWICE).maps, v, run) ==> Coincident(Track(TOP, TWICE).maps, run)
    {
      DecodedCoincident(Track(TOP, TWICE).maps, v, run);
    }
  }

  lemma DecodedCoincident(maps: seq<Renaming>, v: Val, run: seq<State>)
    requires |run| == |maps| + 1
    ensures Decodes(maps, v, run) ==> Coincident(maps, run)
  {
    if Decodes(maps, v, run) { ReadBackCoincident(maps, v, run); }
  }

  lemma RunTwice(s0: State, s1: State, s2: State)
    requires s1 == With(s0, 1) && s2 == With(s1, 2)
    ensures IsRun(TOP, TWICE, [s0, s1, s2])
  {
    hide Step;
    SetXStep(1, s0);
    SetXStep(2, s1);
    assert TWICE[..1] == [Stepped(SetX(1))] && TWICE[..1][..0] == [];
    assert [s0, s1, s2][..2] == [s0, s1] && [s0, s1][..1] == [s0];
    assert SameProgram(Mk(s0, s0, s0), Mk(s0, s0, s0));
    assert InSet(TOP, s0);
    assert IsRun(TOP, [], [s0]);
    assert IsRun(TOP, TWICE[..1], [s0, s1]);
  }

  lemma TwiceMaps()
    ensures Track(TOP, TWICE).maps == [map[BaseSym(X) := PAST_X], map[BaseSym(X) := PAST_X]]
  {
    hide ForwardImage, PastMap, SetX, Used, Track;
    var e1, e2 := Stepped(SetX(1)), Stepped(SetX(2));
    PastIsX(TOP, 1) by { NothingUsed(); }
    FirstUses(1);
    PastIsX(ForwardImage(TOP, SetX(1)), 2);
    TrackNone();
    TrackOne([], [e1], e1);
    TrackOne([e1], [e1, e2], e2);
  }

  lemma TrackNone()
    ensures Track(TOP, []) == NewHistory(TOP)
  {
  }

  lemma TrackOne(es: seq<Event>, all: seq<Event>, e: Event)
    requires e.Stepped? && all == es + [e]
    ensures Track(TOP, all).post == ForwardImage(Track(TOP, es).post, e.u)
    ensures Track(TOP, all).maps == Track(TOP, es).maps + [PastMap(Track(TOP, es).post, e.u)]
  {
    hide ForwardImage, PastMap;
    assert all[..|all| - 1] == es;
  }

  /** After the first step the clauses are about the present only. */
  lemma FirstUses(n: int)
    ensures forall y :: y in Used(ForwardImage(TOP, SetX(n))) ==> y == BaseSym(X)
  {
    hide Used, Rename, Conjoin;
    var u := SetX(n);
    var c := Conjoin(TOP, u.tr);
    SetXBound(n);
    ConjoinSyms(TOP, u.tr);
    assert Used(TOP) == {} by { NothingUsed(); }
    RenameUsed(c, PastMap(TOP, u));
    RenameUsed(Rename(c, PastMap(TOP, u)), Unprime(u.mod));
    forall y | y in Used(c)
      ensures Lookup(Unprime(u.mod), Lookup(PastMap(TOP, u), y)) == BaseSym(X)
    {
      LookupOut(PastMap(TOP, u), y);
      LookupUnprime(u.mod, y);
    }
  }

  lemma NothingUsed()
    ensures Used(TOP) == {}
  {
  }

  lemma TwiceNames()
    requires Track(TOP, TWICE).maps == [map[BaseSym(X) := PAST_X], map[BaseSym(X) := PAST_X]]
    ensures NameAt(Track(TOP, TWICE).maps, 0, X) == NameAt(Track(TOP, TWICE).maps, 1, X)
  {
    var maps := Track(TOP, TWICE).maps;
    BackMapLookup(maps, 0, BaseSym(X));
    BackMapLookup(maps, 1, PAST_X);
    BackMapLookup(maps, 1, BaseSym(X));
    BackMapLookup(maps, 2, PAST_X);
  }

  // ----- a leading existential with another free variable -----

  /** some x = Y, for every Y. */
  const SOME_EQUAL := Quant(false, "x", Op(Equals, Var("x"), Var("Y")))

  /** The formula is true in every state, but one constant cannot equal every Y: the update has no transition. */
  lemma AssumeTooStrong(o: State, s: State, t: State)
    ensures StateExpr(SOME_EQUAL) && Exec(Assume(SOME_EQUAL), o, s, s) && !Rel(AssumeUpdate(SOME_EQUAL), o, s, t)
  {
    forall env: Env
      ensures Eval(SOME_EQUAL, Now(o, s), env) != 0
    {
      var n := ValueOf(env, "Y");
      assert Eval(Op(Equals, Var("x"), Var("Y")), Now(o, s), Bind(env, "x", n)) == 1;
    }
    var sk := App(Sym(Skolem, Id("__sk__x", 0)), []);
    assert "__sk__" + "x" == "__sk__x";
    assert SkolemizeFormula(SOME_EQUAL) == Op(Equals, sk, Var("Y"));
    forall w: Val
      ensures !Valid(Op(Equals, sk, Var("Y")), w)
    {
      var n := Eval(sk, w, map["Y" := 0]);
      var env: Env := map["Y" := n + 1];
      assert Eval(sk, w, env) == w(Sym(Skolem, Id("__sk__x", 0)))([]) == n;
      assert Eval(Op(Equals, sk, Var("Y")), w, env) == 0;
    }
  }

  // ----- an index expression with a variable -----

  const F := Id("f", 1)
  const G := Id("g", 1)

  /** f(g(X)) := 1, where X stays a variable of the clause. */
  const AT_IMAGE := Target(F, [App(BaseSym(G), [Var("X")])])

  /** In a state where g takes two values at which f is not 1, the update of f(g(X)) := 1 has no transition,
      although an assignment always has one. */
  lemma AssignBlocks(o: State, s: State, t: State)
    requires s(G)([0]) == 0 && s(G)([1]) == 1 && s(F)([0]) == 0 && s(F)([1]) == 0
    ensures !Rel(AssignUpdate(AT_IMAGE, Lit(1)), o, s, t)
  {
    var g := App(BaseSym(G), [Var("X")]);
    var v0 := Var("V0");
    assert Decimal(0) == "0" && "V" + "0" == "V0";
    assert Holes("V", 1) == [v0];
    assert [g][..0] == [];
    var cond := Op(Conj, Lit(1), Op(Equals, v0, g));
    assert IndexConds("V", [g]) == cond;
    assert SubstExpr(Lit(1), IndexSub("V", [g])) == Lit(1);
    var e := Op(Equals, App(NewSym(F), [v0]), Ite(cond, Lit(1), App(BaseSym(F), [v0])));
    assert [g][0] == g;
    assert AssignExpr(AT_IMAGE, Lit(1)) == e;
    forall w: Val | SameProgram(Mk(o, s, t), w)
      ensures !Valid(e, w)
    {
      var hit: Env := map["V0" := 0, "X" := 0];
      var miss: Env := map["V0" := 0, "X" := 1];
      AtImageEval(w, hit, s, t, o);
      AtImageEval(w, miss, s, t, o);
    }
  }

  lemma AtImageEval(w: Val, env: Env, s: State, t: State, o: State)
    requires SameProgram(Mk(o, s, t), w) && "V0" in env && "X" in env
    ensures var v0, g := Var("V0"), App(BaseSym(G), [Var("X")]);
            var cond := Op(Conj, Lit(1), Op(Equals, v0, g));
            var e := Op(Equals, App(NewSym(F), [v0]), Ite(cond, Lit(1), App(BaseSym(F), [v0])));
            Eval(e, w, env) == Truth(t(F)([env["V0"]]) ==
              if env["V0"] == s(G)([env["X"]]) then 1 else s(F)([env["V0"]]))
  {
    var v0, g := Var("V0"), App(BaseSym(G), [Var("X")]);
    var cond := Op(Conj, Lit(1), Op(Equals, v0, g));
    OneArg("V0", w, env);
    OneArg("X", w, env);
    assert w(NewSym(F)) == Mk(o, s, t)(NewSym(F)) && w(BaseSym(F)) == Mk(o, s, t)(BaseSym(F));
    assert w(BaseSym(G)) == Mk(o, s, t)(BaseSym(G));
    assert Eval(g, w, env) == s(G)([env["X"]]);
    assert Eval(Op(Equals, v0, g), w, env) == Truth(env["V0"] == s(G)([env["X"]]));
    assert Eval(cond, w, env) == Truth(env["V0"] == s(G)([env["X"]]));
    assert Eval(App(BaseSym(F), [v0]), w, env) == s(F)([env["V0"]]);
    assert Eval(App(NewSym(F), [v0]), w, env) == t(F)([env["V0"]]);
  }

  lemma OneArg(x: string, w: Val, env: Env)
    requires x in env
    ensures EvalAll([Var(x)], w, env) == [env[x]]
  {
    assert [Var(x)][..0] == [];
    assert EvalAll([], w, env) == [];
  }

  // ----- a right-hand side that binds a placeholder -----

  /** f(X) := 1 if some V0 is less than X. */
  const BOUNDED := Quant(false, "V0", Op(Less, Var("V0"), Var("X")))

  const AT_X := Target(F, [Var("X")])

  const CAPTURED := Quant(false, "V0", Op(Less, Var("V0"), Var("V0")))

  lemma CapturedExpr()
    ensures IndexSub("V", AT_X.args) == map["X" := Var("V0")]
    ensures AssignExpr(AT_X, BOUNDED) == Op(Equals, App(NewSym(F), [Var("V0")]), CAPTURED)
  {
    var v0 := Var("V0");
    assert Decimal(0) == "0" && "V" + "0" == "V0";
    assert Holes("V", 1) == [v0];
    assert [Var("X")][..0] == [] && [Var("X")][0] == Var("X");
    var sub := IndexSub("V", [Var("X")]);
    assert sub == map["X" := v0];
    assert sub - {"V0"} == sub;
    assert SubstExpr(Op(Less, v0, Var("X")), sub) == Op(Less, v0, v0);
    assert SubstExpr(BOUNDED, sub) == CAPTURED;
  }

  lemma CapturedFalse(w: Val, env: Env)
    ensures Eval(CAPTURED, w, env) == 0
  {
    forall n: int
      ensures Eval(Op(Less, Var("V0"), Var("V0")), w, Bind(env, "V0", n)) == 0
    {
    }
  }

  /** The variable X becomes V0 and is captured: the update sets f to 0 everywhere instead of 1. */
  lemma AssignCaptures(o: State, s: State, t: State)
    requires Rel(AssignUpdate(AT_X, BOUNDED), o, s, t)
    ensures !NoCapture(BOUNDED, IndexSub("V", AT_X.args))
    ensures t(F)([5]) == 0 && (Assigned(AT_X, BOUNDED, o, s, t) ==> t(F)([5]) == 1)
  {
    hide AssignExpr, CAPTURED;
    CapturedExpr();
    assert "X" in FreeVars(Op(Less, Var("V0"), Var("X")));
    var v0 := Var("V0");
    var e := Op(Equals, App(NewSym(F), [v0]), CAPTURED);
    var w: Val :| SameProgram(Mk(o, s, t), w) && Holds(Fact(e), w);
    var env: Env := map["V0" := 5];
    OneArg("V0", w, env);
    CapturedFalse(w, env);
    assert w(NewSym(F)) == Mk(o, s, t)(NewSym(F));
    assert Eval(App(NewSym(F), [v0]), w, env) == t(F)([5]);
    assert Eval(e, w, env) != 0;
    BoundedValue(o, s);
  }

  lemma BoundedValue(o: State, s: State)
    ensures Eval(BOUNDED, Now(o, s), IndexEnv([Var("X")], [5])) == 1 && Addressed([Var("X")], Now(o, s), [5])
  {
    assert [Var("X")][..0] == [] && [5][..0] == [] && [Var("X")][0] == Var("X");
    var env := IndexEnv([Var("X")], [5]);
    assert env == map["X" := 5];
    assert Eval(Op(Less, Var("V0"), Var("X")), Now(o, s), Bind(env, "V0", 0)) == 1;
  }

  // ----- an axiom that is not asked in between -----

  const Y := Id("y", 0)

  /** The update of i := 1. */
  function SetOne(i: Id): Update
  {
    Update([i], Fact(Op(Equals, App(NewSym(i), []), Lit(1))), BOT)
  }

  /** x = y */
  const SAME_XY := Fact(Op(Equals, App(BaseSym(X), []), App(BaseSym(Y), [])))

  lemma SetOneRel(i: Id, s: State, t: State)
    requires i.arity == 0
    ensures Rel(SetOne(i), s, s, t) <==> (forall j: Id :: j != i ==> t(j) == s(j)) && t(i)([]) == 1
    ensures WellFormed(SetOne(i))
  {
    var e := Op(Equals, App(NewSym(i), []), Lit(1));
    forall w: Val | SameProgram(Mk(s, s, t), w)
      ensures Holds(Fact(e), w) <==> t(i)([]) == 1
    {
      assert w(NewSym(i)) == Mk(s, s, t)(NewSym(i)) == t(i);
      forall env: Env
        ensures Eval(e, w, env) == Truth(t(i)([]) == 1)
      {
        assert EvalAll([], w, env) == [];
      }
      assert Eval(e, w, map[]) != 0 <==> t(i)([]) == 1;
    }
    assert SameProgram(Mk(s, s, t), Mk(s, s, t));
    assert SymsAll([]) == {};
    assert Syms(e) == {NewSym(i)};
  }

  lemma SameXYTrue(s: State)
    ensures B.AllTrue([SAME_XY], s) <==> s(X)([]) == s(Y)([])
  {
    var e := Op(Equals, App(BaseSym(X), []), App(BaseSym(Y), []));
    var v := Mk(s, s, s);
    assert v(BaseSym(X)) == s(X) && v(BaseSym(Y)) == s(Y);
    forall env: Env
      ensures Eval(e, v, env) == Truth(s(X)([]) == s(Y)([]))
    {
      assert EvalAll([], v, env) == [];
    }
    assert Eval(e, v, map[]) != 0 <==> s(X)([]) == s(Y)([]);
    assert SAME_XY in [SAME_XY];
  }

  /** x := 1; y := 1 under the axiom x = y: the composition leads from a state that satisfies the axiom to one
      that satisfies it, although no state in between does, since the axiom mentions no symbol that both change. */
  lemma MixedAxiomIsNotAsked(s: State, t: State)
    requires s(X)([]) == 0 && s(Y)([]) == 0
    requires t(X)([]) == 1 && t(Y)([]) == 1 && forall i: Id :: i != X && i != Y ==> t(i) == s(i)
    ensures B.AllTrue([SAME_XY], s) && B.AllTrue([SAME_XY], t)
    ensures Rel(B.ComposeIn([SAME_XY], SetOne(X), SetOne(Y)), s, s, t)
    ensures forall m: State :: Rel(SetOne(X), s, s, m) ==> !B.AllTrue([SAME_XY], m)
  {
    hide Rel, B.AllTrue, SetOne, B.ComposeIn;
    SameXYTrue(s);
    SameXYTrue(t);
    var m: State := (i: Id) => if i == X then t(X) else s(i);
    SetOneRel(X, s, m);
    SetOneFrom(Y, s, m, t);
    NothingShared(m);
    B.ComposeInRel([SAME_XY], SetOne(X), SetOne(Y), s, s, t);
    forall m: State | Rel(SetOne(X), s, s, m)
      ensures !B.AllTrue([SAME_XY], m)
    {
      SetOneRel(X, s, m);
      SameXYTrue(m);
    }
  }

  lemma SetOneFrom(i: Id, o: State, s: State, t: State)
    requires i.arity == 0 && (forall j: Id :: j != i ==> t(j) == s(j)) && t(i)([]) == 1
    ensures Rel(SetOne(i), o, s, t) && WellFormed(SetOne(i))
  {
    var e := Op(Equals, App(NewSym(i), []), Lit(1));
    var w := Mk(o, s, t);
    assert w(NewSym(i)) == t(i);
    forall env: Env
      ensures Eval(e, w, env) == 1
    {
      assert EvalAll([], w, env) == [];
    }
    assert SameProgram(w, w) && Holds(Fact(e), w);
    SetOneRel(i, s, s);
  }

  lemma NothingShared(m: State)
    ensures B.Axioms([SAME_XY]) && B.Unnamed([SAME_XY], SetOne(X), SetOne(Y)) &&
            B.Respects([SAME_XY], SetOne(X), SetOne(Y), m)
  {
    assert SymsAll([]) == {};
    assert Syms(App(BaseSym(X), [])) == {BaseSym(X)} && Syms(App(BaseSym(Y), [])) == {BaseSym(Y)};
    assert Used(SAME_XY) == {BaseSym(X), BaseSym(Y)};
    assert [X][..0] == [];
    assert B.Mid(SetOne(X), SetOne(Y)) == [];
  }
}
