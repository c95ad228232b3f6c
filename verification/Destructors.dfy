/**
 Assignment to a field, or to a field of a field, of a struct.  The symbol at the root gets a value of which the
 update says how its fields compare with those of the old one.  It is said what this asks of the new state, for all
 arguments; and where the variables among the arguments are different, that exactly the addressed fields change and
 that the new state is determined.
 */
module Destructors {
  import opened Names
  import opened Logic
  import opened ClauseOps
  import opened Updates
  import opened Hiding
  import opened Substitution
  import opened Actions
  import opened Atoms
  import opened Compiler
  import opened Exactness

  /** A destructor and its arguments after the struct. */
  datatype Step = Step(d: Id, args: seq<Expr>)

  /** The destructors of the struct that a destructor belongs to. */
  type Fields = map<Id, seq<Id>>

  /** The unknown new value at the root. */
  function NewValue(x: Id): Sym
  {
    Sym(Skolem, Id("__" + x.name + "_nd", x.arity))
  }

  /** The first j destructors applied to the root. */
  function Chain(root: Expr, steps: seq<Step>, j: nat): Expr
    requires j <= |steps|
  {
    if j == 0 then root else App(BaseSym(steps[j - 1].d), [Chain(root, steps, j - 1)] + steps[j - 1].args)
  }

  /** The placeholders after the first. */
  function Rest(n: nat): seq<Expr>
  {
    seq(n, k requires 0 <= k < n => Var("V" + Decimal(k + 1)))
  }

  function FieldEq(d: Id, l: Expr, r: Expr, n: nat): Expr
  {
    Op(Equals, App(BaseSym(d), [l] + Rest(n)), App(BaseSym(d), [r] + Rest(n)))
  }

  predicate AllVars(args: seq<Expr>)
  {
    forall k :: 0 <= k < |args| ==> args[k].Var?
  }

  /** The placeholders equal the arguments that are no variables. */
  function ArgConds(args: seq<Expr>): Expr
  {
    if args == [] then Lit(1) else
    var n := |args| - 1;
    var c := ArgConds(args[..n]);
    if args[n].Var? then c else Op(Conj, c, Op(Equals, Var("V" + Decimal(n + 1)), args[n]))
  }

  /** At other arguments the destructor gives the same of the new struct as of the old; variables are not compared. */
  function OtherArgs(step: Step, l: Expr, r: Expr): Clauses
  {
    if AllVars(step.args) then TOP
    else Fact(Op(Disj, ArgConds(step.args), FieldEq(step.d, l, r, |step.args|)))
  }

  /** The other destructors do too. */
  function Siblings(es: seq<Id>, d: Id, l: Expr, r: Expr): Clauses
  {
    if es == [] then TOP else
    var n := |es| - 1;
    var c := Siblings(es[..n], d, l, r);
    if es[n] == d || es[n].arity == 0 then c else Both(c, Fact(FieldEq(es[n], l, r, es[n].arity - 1)))
  }

  function FieldsOf(fields: Fields, d: Id): seq<Id>
  {
    if d in fields then fields[d] else []
  }

  function LevelClauses(fields: Fields, step: Step, l: Expr, r: Expr): Clauses
  {
    Both(OtherArgs(step, l, r), Siblings(FieldsOf(fields, step.d), step.d, l, r))
  }

  function Levels(fields: Fields, l: Expr, r: Expr, steps: seq<Step>, j: nat): Clauses
    requires j <= |steps|
  {
    if j == 0 then TOP else
    var step := steps[j - 1];
    var l', r' := Chain(l, steps, j - 1), Chain(r, steps, j - 1);
    Both(Levels(fields, l, r, steps, j - 1), LevelClauses(fields, step, l', r'))
  }

  function FieldUpdate(fields: Fields, target: Target, steps: seq<Step>, rhs: Expr): Update
  {
    var l, r := App(NewValue(target.x), target.args), App(BaseSym(target.x), target.args);
    var levels := Levels(fields, l, r, steps, |steps|);
    Update([target.x],
           Both(Fact(AssignExpr(target, l)), Both(levels, Fact(Op(Equals, Chain(l, steps, |steps|), rhs)))), BOT)
  }

  // ----- what is asked of the new state -----

  predicate StateArgs(args: seq<Expr>)
  {
    forall k :: 0 <= k < |args| ==> StateExpr(args[k])
  }

  predicate FieldOk(target: Target, steps: seq<Step>, rhs: Expr)
  {
    StateArgs(target.args) && StateExpr(rhs) && forall j :: 0 <= j < |steps| ==> StateArgs(steps[j].args)
  }

  /** The values of the arguments. */
  ghost function At(args: seq<Expr>, o: State, s: State, env: Env): (a: seq<int>)
    ensures |a| == |args|
  {
    EvalAll(args, Now(o, s), env)
  }

  /** What the first j destructors read from the struct r. */
  ghost function ReadAt(steps: seq<Step>, j: nat, o: State, s: State, env: Env, r: int): int
    requires j <= |steps|
  {
    if j == 0 then r
    else s(steps[j - 1].d)([ReadAt(steps, j - 1, o, s, env, r)] + At(steps[j - 1].args, o, s, env))
  }

  /** The placeholders are the values of the arguments that are no variables. */
  ghost predicate ArgHit(args: seq<Expr>, b: seq<int>, o: State, s: State, env: Env)
    requires |b| == |args|
  {
    forall k :: 0 <= k < |args| && !args[k].Var? ==> b[k] == Eval(args[k], Now(o, s), env)
  }

  /** The structs l and r may differ in the destructor where its arguments are hit, and in no other destructor, as far
      as the placeholders tell. */
  ghost predicate LevelAt(fields: Fields, step: Step, o: State, s: State, env: Env, l: int, r: int)
  {
    var b := RestOf(|step.args|, env);
    && (ArgHit(step.args, b, o, s, env) || s(step.d)([l] + b) == s(step.d)([r] + b))
    && forall e :: e in FieldsOf(fields, step.d) && e != step.d && e.arity > 0 ==>
         s(e)([l] + RestOf(e.arity - 1, env)) == s(e)([r] + RestOf(e.arity - 1, env))
  }

  /** The structs l and r differ only along the chain, at whose end l has the value of the right-hand side. */
  ghost predicate ChainMet(fields: Fields, steps: seq<Step>, rhs: Expr, o: State, s: State, env: Env, l: int, r: int)
  {
    && (forall j :: 0 <= j < |steps| ==>
          LevelAt(fields, steps[j], o, s, env, ReadAt(steps, j, o, s, env, l), ReadAt(steps, j, o, s, env, r)))
    && ReadAt(steps, |steps|, o, s, env, l) == Eval(rhs, Now(o, s), env)
  }

  /** The arguments of the root with placeholders for the variables. */
  function PlacedArgs(target: Target): seq<Expr>
  {
    SubstExprs(target.args, IndexSub("V", target.args))
  }

  /** The cell of the placeholders has the new value of the struct if it is hit, and the old one if not. */
  ghost predicate RootMet(target: Target, o: State, s: State, t: State, given: Table, env: Env)
  {
    t(target.x)(Cell(target, env)) ==
    if Hit(target.args, Now(o, s), env) then given(At(PlacedArgs(target), o, s, env))
    else s(target.x)(Cell(target, env))
  }

  /** What one choice of values for the variables asks. */
  ghost predicate EnvMet(fields: Fields, target: Target, steps: seq<Step>, rhs: Expr, o: State, s: State, t: State,
                         given: Table, env: Env)
  {
    var a := At(target.args, o, s, env);
    RootMet(target, o, s, t, given, env) && ChainMet(fields, steps, rhs, o, s, env, given(a), s(target.x)(a))
  }

  /** With these values of the new structs, every choice of values for the variables is met. */
  ghost predicate FieldMet(fields: Fields, target: Target, steps: seq<Step>, rhs: Expr, o: State, s: State, t: State,
                           given: Table)
  {
    forall env: Env :: EnvMet(fields, target, steps, rhs, o, s, t, given, env)
  }

  // ----- placeholders -----

  ghost predicate HoldsRest(b: seq<int>, env: Env)
  {
    forall k: nat :: k < |b| ==> ValueOf(env, "V" + Decimal(k + 1)) == b[k]
  }

  ghost function RestOf(n: nat, env: Env): (b: seq<int>)
    ensures |b| == n && HoldsRest(b, env)
  {
    seq(n, k requires 0 <= k < n => ValueOf(env, "V" + Decimal(k + 1)))
  }

  lemma RestValue(b: seq<int>, w: Val, env: Env)
    requires HoldsRest(b, env)
    ensures EvalAll(Rest(|b|), w, env) == b
  {
    forall k: nat | k < |b|
      ensures EvalAll(Rest(|b|), w, env)[k] == b[k]
    {
      EvalAllAt(Rest(|b|), w, env, k);
    }
  }

  lemma {:induction false} EvalAllBoth(l: Expr, es: seq<Expr>, w: Val, env: Env)
    ensures EvalAll([l] + es, w, env) == [Eval(l, w, env)] + EvalAll(es, w, env)
  {
    if es == [] {
      assert [l] + es == [l] && [l][..0] == [];
    } else {
      EvalAllBoth(l, es[..|es| - 1], w, env);
      assert ([l] + es)[..|es|] == [l] + es[..|es| - 1];
    }
  }

  lemma FieldApp(d: Id, l: Expr, b: seq<int>, w: Val, env: Env)
    requires HoldsRest(b, env)
    ensures Eval(App(BaseSym(d), [l] + Rest(|b|)), w, env) == w(BaseSym(d))([Eval(l, w, env)] + b)
  {
    EvalAllBoth(l, Rest(|b|), w, env);
    RestValue(b, w, env);
  }

  lemma FieldEqEval(d: Id, l: Expr, r: Expr, b: seq<int>, w: Val, env: Env)
    requires HoldsRest(b, env)
    ensures Eval(FieldEq(d, l, r, |b|), w, env) != 0 <==>
            w(BaseSym(d))([Eval(l, w, env)] + b) == w(BaseSym(d))([Eval(r, w, env)] + b)
  {
    hide Eval;
    FieldApp(d, l, b, w, env);
    FieldApp(d, r, b, w, env);
    EqualsEval(App(BaseSym(d), [l] + Rest(|b|)), App(BaseSym(d), [r] + Rest(|b|)), w, env);
  }

  lemma ArgHitSplit(args: seq<Expr>, b: seq<int>, o: State, s: State, env: Env)
    requires args != [] && |b| == |args|
    ensures var n := |args| - 1;
            ArgHit(args, b, o, s, env) <==>
            ArgHit(args[..n], b[..n], o, s, env) && (args[n].Var? || b[n] == Eval(args[n], Now(o, s), env))
  {
    var n := |args| - 1;
    assert args == args[..n] + [args[n]] && b == b[..n] + [b[n]];
  }

  lemma {:induction false} ArgCondsEval(args: seq<Expr>, b: seq<int>, o: State, s: State, t: State, w: Val, env: Env)
    requires |b| == |args| && HoldsRest(b, env) && StateArgs(args) && SameProgram(Mk(o, s, t), w)
    ensures Eval(ArgConds(args), w, env) != 0 <==> ArgHit(args, b, o, s, env)
  {
    if args != [] {
      hide ArgHit, SameProgram;
      var n := |args| - 1;
      ArgHitSplit(args, b, o, s, env);
      assert HoldsRest(b[..n], env);
      ArgCondsEval(args[..n], b[..n], o, s, t, w, env);
      if !args[n].Var? {
        StateEval(args[n], o, s, t, w, env);
        assert Eval(Var("V" + Decimal(n + 1)), w, env) == b[n];
        EqualsEval(Var("V" + Decimal(n + 1)), args[n], w, env);
        ConjEval(ArgConds(args[..n]), Op(Equals, Var("V" + Decimal(n + 1)), args[n]), w, env);
      }
    }
  }

  lemma ConjEval(l: Expr, r: Expr, w: Val, env: Env)
    ensures Eval(Op(Conj, l, r), w, env) != 0 <==> Eval(l, w, env) != 0 && Eval(r, w, env) != 0
  {
  }

  lemma DisjEval(l: Expr, r: Expr, w: Val, env: Env)
    ensures Eval(Op(Disj, l, r), w, env) != 0 <==> Eval(l, w, env) != 0 || Eval(r, w, env) != 0
  {
  }

  lemma BothHolds(c: Clauses, d: Clauses, w: Val)
    ensures Holds(Both(c, d), w) <==> Holds(c, w) && Holds(d, w)
  {
  }

  // ----- the clauses of one level -----

  lemma AllVarsHit(args: seq<Expr>, b: seq<int>, o: State, s: State, env: Env)
    requires |b| == |args| && AllVars(args)
    ensures ArgHit(args, b, o, s, env)
  {
  }

  ghost predicate HitOrSame(step: Step, o: State, s: State, env: Env, l: int, r: int)
  {
    var b := RestOf(|step.args|, env);
    ArgHit(step.args, b, o, s, env) || s(step.d)([l] + b) == s(step.d)([r] + b)
  }

  ghost predicate SiblingsSame(es: seq<Id>, d: Id, s: State, env: Env, l: int, r: int)
  {
    forall e :: e in es && e != d && e.arity > 0 ==>
      s(e)([l] + RestOf(e.arity - 1, env)) == s(e)([r] + RestOf(e.arity - 1, env))
  }

  lemma BaseValue(o: State, s: State, t: State, w: Val, d: Id)
    requires SameProgram(Mk(o, s, t), w)
    ensures w(BaseSym(d)) == s(d)
  {
    ProgramValue(o, s, t, w, BaseSym(d));
    MkIs(o, s, t, BaseSym(d));
  }

  lemma OtherArgsEval(step: Step, l: Expr, r: Expr, o: State, s: State, t: State, w: Val, env: Env)
    requires StateArgs(step.args) && SameProgram(Mk(o, s, t), w)
    ensures var e := Op(Disj, ArgConds(step.args), FieldEq(step.d, l, r, |step.args|));
            Eval(e, w, env) != 0 <==> HitOrSame(step, o, s, env, Eval(l, w, env), Eval(r, w, env))
    ensures AllVars(step.args) ==> HitOrSame(step, o, s, env, Eval(l, w, env), Eval(r, w, env))
  {
    hide Eval, FieldEq, ArgConds, ArgHit, SameProgram;
    var n := |step.args|;
    var b := RestOf(n, env);
    if AllVars(step.args) { AllVarsHit(step.args, b, o, s, env); }
    ArgCondsEval(step.args, b, o, s, t, w, env);
    FieldEqEval(step.d, l, r, b, w, env);
    BaseValue(o, s, t, w, step.d);
    DisjEval(ArgConds(step.args), FieldEq(step.d, l, r, n), w, env);
  }

  lemma OtherArgsMeaning(step: Step, l: Expr, r: Expr, o: State, s: State, t: State, w: Val)
    requires StateArgs(step.args) && SameProgram(Mk(o, s, t), w)
    ensures Holds(OtherArgs(step, l, r), w) <==>
            forall env: Env :: HitOrSame(step, o, s, env, Eval(l, w, env), Eval(r, w, env))
  {
    hide Eval, FieldEq, ArgConds, HitOrSame, SameProgram;
    var e := Op(Disj, ArgConds(step.args), FieldEq(step.d, l, r, |step.args|));
    assert !AllVars(step.args) ==> (Holds(OtherArgs(step, l, r), w) <==> Valid(e, w));
    if Holds(OtherArgs(step, l, r), w) {
      forall env: Env
        ensures HitOrSame(step, o, s, env, Eval(l, w, env), Eval(r, w, env))
      {
        OtherArgsEval(step, l, r, o, s, t, w, env);
      }
    } else {
      var env: Env :| Eval(e, w, env) == 0;
      OtherArgsEval(step, l, r, o, s, t, w, env);
    }
  }

  lemma OneSibling(d: Id, l: Expr, r: Expr, n: nat, o: State, s: State, t: State, w: Val)
    requires SameProgram(Mk(o, s, t), w)
    ensures Holds(Fact(FieldEq(d, l, r, n)), w) <==>
            forall env: Env :: s(d)([Eval(l, w, env)] + RestOf(n, env)) == s(d)([Eval(r, w, env)] + RestOf(n, env))
  {
    hide Eval, FieldEq, SameProgram;
    forall env: Env
      ensures Eval(FieldEq(d, l, r, n), w, env) != 0 <==>
              s(d)([Eval(l, w, env)] + RestOf(n, env)) == s(d)([Eval(r, w, env)] + RestOf(n, env))
    {
      FieldEqEval(d, l, r, RestOf(n, env), w, env);
      BaseValue(o, s, t, w, d);
    }
  }

  lemma SiblingsLast(es: seq<Id>, d: Id, s: State, env: Env, l: int, r: int)
    requires es != []
    ensures var n := |es| - 1;
            SiblingsSame(es, d, s, env, l, r) <==>
            && SiblingsSame(es[..n], d, s, env, l, r)
            && (es[n] != d && es[n].arity > 0 ==>
                  s(es[n])([l] + RestOf(es[n].arity - 1, env)) == s(es[n])([r] + RestOf(es[n].arity - 1, env)))
  {
    var n := |es| - 1;
    assert es == es[..n] + [es[n]];
    forall e: Id
      ensures e in es <==> e in es[..n] || e == es[n]
    {
    }
  }

  lemma {:induction false} SiblingsMeaning(es: seq<Id>, d: Id, l: Expr, r: Expr, o: State, s: State, t: State, w: Val)
    requires SameProgram(Mk(o, s, t), w)
    ensures Holds(Siblings(es, d, l, r), w) <==>
            forall env: Env :: SiblingsSame(es, d, s, env, Eval(l, w, env), Eval(r, w, env))
  {
    if es != [] {
      hide FieldEq, SiblingsSame, Holds, SameProgram, Eval;
      var n := |es| - 1;
      SiblingsMeaning(es[..n], d, l, r, o, s, t, w);
      forall env: Env
        ensures SiblingsSame(es, d, s, env, Eval(l, w, env), Eval(r, w, env)) <==>
                && SiblingsSame(es[..n], d, s, env, Eval(l, w, env), Eval(r, w, env))
                && (es[n] != d && es[n].arity > 0 ==>
                      s(es[n])([Eval(l, w, env)] + RestOf(es[n].arity - 1, env)) ==
                      s(es[n])([Eval(r, w, env)] + RestOf(es[n].arity - 1, env)))
      {
        SiblingsLast(es, d, s, env, Eval(l, w, env), Eval(r, w, env));
      }
      if es[n] != d && es[n].arity > 0 {
        OneSibling(es[n], l, r, es[n].arity - 1, o, s, t, w);
        BothHolds(Siblings(es[..n], d, l, r), Fact(FieldEq(es[n], l, r, es[n].arity - 1)), w);
      }
    }
  }

  lemma LevelIs(fields: Fields, step: Step, o: State, s: State, env: Env, l: int, r: int)
    ensures LevelAt(fields, step, o, s, env, l, r) <==>
            HitOrSame(step, o, s, env, l, r) && SiblingsSame(FieldsOf(fields, step.d), step.d, s, env, l, r)
  {
    hide ArgHit;
  }

  ghost predicate LevelAll(fields: Fields, step: Step, l: Expr, r: Expr, o: State, s: State, w: Val)
  {
    forall env: Env :: LevelAt(fields, step, o, s, env, Eval(l, w, env), Eval(r, w, env))
  }

  lemma LevelMeaning(fields: Fields, step: Step, l: Expr, r: Expr, o: State, s: State, t: State, w: Val)
    requires StateArgs(step.args) && SameProgram(Mk(o, s, t), w)
    ensures Holds(LevelClauses(fields, step, l, r), w) <==> LevelAll(fields, step, l, r, o, s, w)
  {
    hide OtherArgs, Siblings, Holds, Eval, LevelAt, HitOrSame, SiblingsSame, SameProgram, StateArgs;
    var es := FieldsOf(fields, step.d);
    OtherArgsMeaning(step, l, r, o, s, t, w);
    SiblingsMeaning(es, step.d, l, r, o, s, t, w);
    BothHolds(OtherArgs(step, l, r), Siblings(es, step.d, l, r), w);
    if Holds(LevelClauses(fields, step, l, r), w) {
      forall env: Env
        ensures LevelAt(fields, step, o, s, env, Eval(l, w, env), Eval(r, w, env))
      {
        LevelIs(fields, step, o, s, env, Eval(l, w, env), Eval(r, w, env));
        assert HitOrSame(step, o, s, env, Eval(l, w, env), Eval(r, w, env));
        assert SiblingsSame(es, step.d, s, env, Eval(l, w, env), Eval(r, w, env));
      }
    }
    if LevelAll(fields, step, l, r, o, s, w) {
      forall env: Env
        ensures HitOrSame(step, o, s, env, Eval(l, w, env), Eval(r, w, env))
        ensures SiblingsSame(es, step.d, s, env, Eval(l, w, env), Eval(r, w, env))
      {
        LevelIs(fields, step, o, s, env, Eval(l, w, env), Eval(r, w, env));
        assert LevelAt(fields, step, o, s, env, Eval(l, w, env), Eval(r, w, env));
      }
    }
  }

  // ----- chains -----

  lemma {:induction false} AtNow(args: seq<Expr>, o: State, s: State, t: State, w: Val, env: Env)
    requires StateArgs(args) && SameProgram(Mk(o, s, t), w)
    ensures EvalAll(args, w, env) == At(args, o, s, env)
  {
    if args != [] {
      var n := |args| - 1;
      AtNow(args[..n], o, s, t, w, env);
      StateEval(args[n], o, s, t, w, env);
    }
  }

  /** A chain reads along the destructors. */
  lemma {:induction false} ChainEval(root: Expr, steps: seq<Step>, j: nat, o: State, s: State, t: State, w: Val,
                                     env: Env)
    requires j <= |steps| && (forall k :: 0 <= k < |steps| ==> StateArgs(steps[k].args))
    requires SameProgram(Mk(o, s, t), w)
    ensures Eval(Chain(root, steps, j), w, env) == ReadAt(steps, j, o, s, env, Eval(root, w, env))
  {
    if j > 0 {
      var step := steps[j - 1];
      ChainEval(root, steps, j - 1, o, s, t, w, env);
      EvalAllBoth(Chain(root, steps, j - 1), step.args, w, env);
      AtNow(step.args, o, s, t, w, env);
      BaseValue(o, s, t, w, step.d);
      hide SameProgram, StateArgs, At;
    }
  }

  ghost predicate LevelsMet(fields: Fields, steps: seq<Step>, j: nat, o: State, s: State, env: Env, l: int, r: int)
    requires j <= |steps|
  {
    forall k :: 0 <= k < j ==>
      LevelAt(fields, steps[k], o, s, env, ReadAt(steps, k, o, s, env, l), ReadAt(steps, k, o, s, env, r))
  }

  lemma LevelsSplit(fields: Fields, l: Expr, r: Expr, steps: seq<Step>, j: nat, o: State, s: State, t: State, w: Val,
                    env: Env)
    requires 0 < j <= |steps| && (forall k :: 0 <= k < |steps| ==> StateArgs(steps[k].args))
    requires SameProgram(Mk(o, s, t), w)
    ensures LevelsMet(fields, steps, j, o, s, env, Eval(l, w, env), Eval(r, w, env)) <==>
            && LevelsMet(fields, steps, j - 1, o, s, env, Eval(l, w, env), Eval(r, w, env))
            && LevelAt(fields, steps[j - 1], o, s, env, Eval(Chain(l, steps, j - 1), w, env),
                       Eval(Chain(r, steps, j - 1), w, env))
  {
    hide LevelAt, SameProgram, Chain, ReadAt, StateArgs, Eval;
    ChainEval(l, steps, j - 1, o, s, t, w, env);
    ChainEval(r, steps, j - 1, o, s, t, w, env);
  }

  ghost predicate LevelsAll(fields: Fields, l: Expr, r: Expr, steps: seq<Step>, j: nat, o: State, s: State, w: Val)
    requires j <= |steps|
  {
    forall env: Env :: LevelsMet(fields, steps, j, o, s, env, Eval(l, w, env), Eval(r, w, env))
  }

  lemma LevelsAllSplit(fields: Fields, l: Expr, r: Expr, steps: seq<Step>, j: nat, o: State, s: State, t: State, w: Val)
    requires 0 < j <= |steps| && (forall k :: 0 <= k < |steps| ==> StateArgs(steps[k].args))
    requires SameProgram(Mk(o, s, t), w)
    ensures LevelsAll(fields, l, r, steps, j, o, s, w) <==>
            && LevelsAll(fields, l, r, steps, j - 1, o, s, w)
            && LevelAll(fields, steps[j - 1], Chain(l, steps, j - 1), Chain(r, steps, j - 1), o, s, w)
  {
    hide LevelAt, LevelsMet, SameProgram, Chain, StateArgs, Eval;
    var l', r' := Chain(l, steps, j - 1), Chain(r, steps, j - 1);
    if LevelsAll(fields, l, r, steps, j, o, s, w) {
      forall env: Env
        ensures LevelsMet(fields, steps, j - 1, o, s, env, Eval(l, w, env), Eval(r, w, env))
        ensures LevelAt(fields, steps[j - 1], o, s, env, Eval(l', w, env), Eval(r', w, env))
      {
        assert LevelsMet(fields, steps, j, o, s, env, Eval(l, w, env), Eval(r, w, env));
        LevelsSplit(fields, l, r, steps, j, o, s, t, w, env);
      }
    }
    if LevelsAll(fields, l, r, steps, j - 1, o, s, w) && LevelAll(fields, steps[j - 1], l', r', o, s, w) {
      forall env: Env
        ensures LevelsMet(fields, steps, j, o, s, env, Eval(l, w, env), Eval(r, w, env))
      {
        assert LevelsMet(fields, steps, j - 1, o, s, env, Eval(l, w, env), Eval(r, w, env));
        assert LevelAt(fields, steps[j - 1], o, s, env, Eval(l', w, env), Eval(r', w, env));
        LevelsSplit(fields, l, r, steps, j, o, s, t, w, env);
      }
    }
  }

  lemma LevelsStep(fields: Fields, l: Expr, r: Expr, steps: seq<Step>, j: nat)
    requires 0 < j <= |steps|
    ensures Levels(fields, l, r, steps, j) ==
            Both(Levels(fields, l, r, steps, j - 1),
                 LevelClauses(fields, steps[j - 1], Chain(l, steps, j - 1), Chain(r, steps, j - 1)))
  {
  }

  lemma NoLevels(fields: Fields, l: Expr, r: Expr, steps: seq<Step>, o: State, s: State, w: Val)
    ensures Holds(Levels(fields, l, r, steps, 0), w) && LevelsAll(fields, l, r, steps, 0, o, s, w)
  {
  }

  lemma {:induction false} LevelsMeaning(fields: Fields, l: Expr, r: Expr, steps: seq<Step>, j: nat,
                                         o: State, s: State, t: State, w: Val)
    requires j <= |steps| && (forall k :: 0 <= k < |steps| ==> StateArgs(steps[k].args))
    requires SameProgram(Mk(o, s, t), w)
    ensures Holds(Levels(fields, l, r, steps, j), w) <==> LevelsAll(fields, l, r, steps, j, o, s, w)
  {
    hide LevelClauses, Levels, Holds, LevelsAll, LevelAll, SameProgram, Chain, StateArgs, Eval;
    if j == 0 {
      NoLevels(fields, l, r, steps, o, s, w);
    } else {
      var step := steps[j - 1];
      var l', r' := Chain(l, steps, j - 1), Chain(r, steps, j - 1);
      LevelMeaning(fields, step, l', r', o, s, t, w);
      LevelsMeaning(fields, l, r, steps, j - 1, o, s, t, w);
      LevelsAllSplit(fields, l, r, steps, j, o, s, t, w);
      LevelsStep(fields, l, r, steps, j);
      BothHolds(Levels(fields, l, r, steps, j - 1), LevelClauses(fields, step, l', r'), w);
    }
  }

  // ----- the update -----

  lemma RootMeaning(target: Target, o: State, s: State, t: State, w: Val, env: Env)
    requires StateArgs(target.args) && SameProgram(Mk(o, s, t), w)
    ensures Eval(AssignExpr(target, App(NewValue(target.x), target.args)), w, env) != 0 <==>
            RootMet(target, o, s, t, w(NewValue(target.x)), env)
    ensures Eval(App(NewValue(target.x), target.args), w, env) == w(NewValue(target.x))(At(target.args, o, s, env))
    ensures Eval(App(BaseSym(target.x), target.args), w, env) == s(target.x)(At(target.args, o, s, env))
  {
    var l := App(NewValue(target.x), target.args);
    AssignExprExact(target, l, w, env);
    PlacedState(target);
    AtNow(target.args, o, s, t, w, env);
    AtNow(PlacedArgs(target), o, s, t, w, env);
    assert Placed(target, l) == App(NewValue(target.x), PlacedArgs(target));
    BaseValue(o, s, t, w, target.x);
    assert w(NewSym(target.x)) == Mk(o, s, t)(NewSym(target.x));
    forall k | 0 <= k < |target.args|
      ensures Eval(target.args[k], w, env) == Eval(target.args[k], Now(o, s), env)
    {
      StateEval(target.args[k], o, s, t, w, env);
    }
    hide AssignExpr, Cell, PlacedArgs, SameProgram, StateArgs, IndexSub;
  }

  lemma PlacedState(target: Target)
    requires StateArgs(target.args)
    ensures StateArgs(PlacedArgs(target)) && |PlacedArgs(target)| == |target.args|
  {
    IndexSubSyms("V", target.args);
    forall k | 0 <= k < |target.args|
      ensures StateExpr(PlacedArgs(target)[k])
    {
      SubstExprsAt(target.args, IndexSub("V", target.args), k);
      SubstSyms(target.args[k], IndexSub("V", target.args));
    }
  }

  lemma {:induction false} SubstExprsAt(es: seq<Expr>, sub: Subst, k: nat)
    requires k < |es|
    ensures |SubstExprs(es, sub)| == |es| && SubstExprs(es, sub)[k] == SubstExpr(es[k], sub)
  {
    if k < |es| - 1 { SubstExprsAt(es[..|es| - 1], sub, k); }
  }

  /** The clauses of the update under a valuation of its unknown value. */
  lemma FieldHolds(fields: Fields, target: Target, steps: seq<Step>, rhs: Expr, o: State, s: State, t: State, w: Val)
    requires FieldOk(target, steps, rhs) && SameProgram(Mk(o, s, t), w)
    ensures Holds(FieldUpdate(fields, target, steps, rhs).tr, w) <==>
            FieldMet(fields, target, steps, rhs, o, s, t, w(NewValue(target.x)))
  {
    hide Eval, AssignExpr, Levels, Chain, LevelsAll, FieldMet, SameProgram, Valid;
    var l, r := App(NewValue(target.x), target.args), App(BaseSym(target.x), target.args);
    var levels, leaf := Levels(fields, l, r, steps, |steps|), Op(Equals, Chain(l, steps, |steps|), rhs);
    LevelsMeaning(fields, l, r, steps, |steps|, o, s, t, w);
    BothHolds(Fact(AssignExpr(target, l)), Both(levels, Fact(leaf)), w);
    BothHolds(levels, Fact(leaf), w);
    AllMeaning(fields, target, steps, rhs, o, s, t, w);
  }

  lemma AllMeaning(fields: Fields, target: Target, steps: seq<Step>, rhs: Expr, o: State, s: State, t: State, w: Val)
    requires FieldOk(target, steps, rhs) && SameProgram(Mk(o, s, t), w)
    ensures var l, r := App(NewValue(target.x), target.args), App(BaseSym(target.x), target.args);
            (Holds(Fact(AssignExpr(target, l)), w) && Holds(Fact(Op(Equals, Chain(l, steps, |steps|), rhs)), w)
             && LevelsAll(fields, l, r, steps, |steps|, o, s, w)) <==>
            FieldMet(fields, target, steps, rhs, o, s, t, w(NewValue(target.x)))
  {
    hide Eval, AssignExpr, Chain, EnvMet, LevelsMet, SameProgram, Holds;
    var l, r := App(NewValue(target.x), target.args), App(BaseSym(target.x), target.args);
    var root, leaf := AssignExpr(target, l), Op(Equals, Chain(l, steps, |steps|), rhs);
    FactHolds(root, w);
    FactHolds(leaf, w);
    forall env: Env
      ensures EnvHolds(fields, target, steps, rhs, o, s, w, env) <==>
              EnvMet(fields, target, steps, rhs, o, s, t, w(NewValue(target.x)), env)
    {
      EnvMeaning(fields, target, steps, rhs, o, s, t, w, env);
    }
    if FieldMet(fields, target, steps, rhs, o, s, t, w(NewValue(target.x))) {
      forall env: Env
        ensures Eval(root, w, env) != 0 && Eval(leaf, w, env) != 0
        ensures LevelsMet(fields, steps, |steps|, o, s, env, Eval(l, w, env), Eval(r, w, env))
      {
        assert EnvHolds(fields, target, steps, rhs, o, s, w, env);
      }
    }
  }

  /** The clauses, in one environment. */
  ghost predicate EnvHolds(fields: Fields, target: Target, steps: seq<Step>, rhs: Expr, o: State, s: State, w: Val,
                           env: Env)
  {
    var l, r := App(NewValue(target.x), target.args), App(BaseSym(target.x), target.args);
    && Eval(AssignExpr(target, l), w, env) != 0
    && Eval(Op(Equals, Chain(l, steps, |steps|), rhs), w, env) != 0
    && LevelsMet(fields, steps, |steps|, o, s, env, Eval(l, w, env), Eval(r, w, env))
  }

  lemma FactHolds(e: Expr, w: Val)
    ensures Holds(Fact(e), w) ==> forall env: Env :: Eval(e, w, env) != 0
    ensures !Holds(Fact(e), w) ==> exists env: Env :: Eval(e, w, env) == 0
  {
    if !Holds(Fact(e), w) {
      var env: Env :| Eval(e, w, env) == 0;
    }
  }

  lemma EnvMeaning(fields: Fields, target: Target, steps: seq<Step>, rhs: Expr, o: State, s: State, t: State, w: Val,
                   env: Env)
    requires FieldOk(target, steps, rhs) && SameProgram(Mk(o, s, t), w)
    ensures EnvHolds(fields, target, steps, rhs, o, s, w, env) <==>
            EnvMet(fields, target, steps, rhs, o, s, t, w(NewValue(target.x)), env)
  {
    hide Eval, AssignExpr, Chain, ReadAt, LevelAt, StateArgs, RootMet, SameProgram, At;
    var l, r := App(NewValue(target.x), target.args), App(BaseSym(target.x), target.args);
    RootMeaning(target, o, s, t, w, env);
    ChainEval(l, steps, |steps|, o, s, t, w, env);
    EqualsEval(Chain(l, steps, |steps|), rhs, w, env);
    StateEval(rhs, o, s, t, w, env);
  }

  /** The update of a field assignment leaves other symbols alone, and gives the root new structs that meet every
      choice of values for the variables. */
  lemma FieldExact(fields: Fields, target: Target, steps: seq<Step>, rhs: Expr, o: State, s: State, t: State)
    requires FieldOk(target, steps, rhs)
    ensures Rel(FieldUpdate(fields, target, steps, rhs), o, s, t) <==>
            Framed(target.x, s, t) && exists given: Table :: FieldMet(fields, target, steps, rhs, o, s, t, given)
  {
    hide Holds, FieldMet, FieldOk;
    var u := FieldUpdate(fields, target, steps, rhs);
    assert u.mod == [target.x];
    hide FieldUpdate;
    forall w: Val | SameProgram(Mk(o, s, t), w) && Holds(u.tr, w)
      ensures exists given: Table :: FieldMet(fields, target, steps, rhs, o, s, t, given)
    {
      FieldHolds(fields, target, steps, rhs, o, s, t, w);
    }
    if given: Table :| FieldMet(fields, target, steps, rhs, o, s, t, given) {
      var v := Mk(o, s, t);
      var w := SetSym(v, NewValue(target.x), given);
      assert w(NewValue(target.x)) == given && SameProgram(v, w);
      FieldHolds(fields, target, steps, rhs, o, s, t, w);
    }
  }

  // ----- different variables at the root -----

  /** Each argument is a variable or closed. */
  predicate Simple(args: seq<Expr>)
  {
    forall k :: 0 <= k < |args| ==> args[k].Var? || (StateExpr(args[k]) && Closed(args[k]))
  }

  predicate Different(args: seq<Expr>)
  {
    forall i, k :: 0 <= i < k < |args| && args[i].Var? && args[k].Var? ==> args[i].name != args[k].name
  }

  lemma SimpleState(args: seq<Expr>)
    requires Simple(args)
    ensures StateArgs(args)
  {
    forall k | 0 <= k < |args|
      ensures StateExpr(args[k])
    {
      if args[k].Var? { assert Syms(args[k]) == {}; }
    }
  }

  lemma AtIs(args: seq<Expr>, o: State, s: State, env: Env, k: nat)
    requires k < |args|
    ensures At(args, o, s, env)[k] == Eval(args[k], Now(o, s), env)
  {
    EvalAllAt(args, Now(o, s), env, k);
  }

  /** The addressed cells are those that the arguments name under some values of the variables. */
  lemma HitAddressed(args: seq<Expr>, o: State, s: State, env: Env, a: seq<int>)
    requires Simple(args) && |a| == |args| && Holding("V", a, env)
    ensures Hit(args, Now(o, s), env) <==> Addressed(args, Now(o, s), a)
  {
    hide Eval;
    forall k | 0 <= k < |args| && !args[k].Var?
      ensures Eval(args[k], Now(o, s), env) == Eval(args[k], Now(o, s), map[])
    {
      ClosedEval(args[k], Now(o, s), env);
    }
    assert forall k :: 0 <= k < |args| ==> ValueOf(env, "V" + Decimal(k)) == a[k];
  }

  lemma AtAddressed(args: seq<Expr>, o: State, s: State, env: Env)
    requires Simple(args)
    ensures Addressed(args, Now(o, s), At(args, o, s, env))
  {
    hide Eval;
    forall k | 0 <= k < |args| && !args[k].Var?
      ensures At(args, o, s, env)[k] == Eval(args[k], Now(o, s), map[])
    {
      AtIs(args, o, s, env, k);
      ClosedEval(args[k], Now(o, s), env);
    }
  }

  lemma {:induction false} IndexSubAt(args: seq<Expr>, k: nat)
    requires k < |args| && args[k].Var? && Different(args)
    ensures args[k].name in IndexSub("V", args) && IndexSub("V", args)[args[k].name] == Var("V" + Decimal(k))
  {
    var n := |args| - 1;
    if k < n {
      IndexSubAt(args[..n], k);
      assert args[..n][k] == args[k];
    }
  }

  lemma {:induction false} ClosedKept(e: Expr, sub: Subst)
    requires FreeVars(e) !! sub.Keys
    ensures SubstExpr(e, sub) == e
    decreases e, 1
  {
    match e
    case Var(_) =>
    case Lit(_) =>
    case App(_, args) => ClosedKeptAll(args, sub);
    case Not(a) => ClosedKept(a, sub);
    case Op(_, l, r) => ClosedKept(l, sub); ClosedKept(r, sub);
    case Ite(c, t, f) => ClosedKept(c, sub); ClosedKept(t, sub); ClosedKept(f, sub);
    case Quant(_, x, b) => ClosedKept(b, sub - {x});
  }

  lemma {:induction false} ClosedKeptAll(es: seq<Expr>, sub: Subst)
    requires FreeVarsAll(es) !! sub.Keys
    ensures SubstExprs(es, sub) == es
    decreases es, 0
  {
    if es != [] {
      var n := |es| - 1;
      ClosedKeptAll(es[..n], sub);
      ClosedKept(es[n], sub);
      assert es == es[..n] + [es[n]];
    }
  }

  /** Where the placeholders hit, the arguments with placeholders name their cell. */
  lemma PlacedHit(target: Target, o: State, s: State, env: Env)
    requires Simple(target.args) && Different(target.args) && Hit(target.args, Now(o, s), env)
    ensures At(PlacedArgs(target), o, s, env) == Cell(target, env)
  {
    hide Eval, IndexSub, SubstExpr, SubstExprs, At;
    var sub := IndexSub("V", target.args);
    SimpleState(target.args);
    PlacedState(target);
    forall k | 0 <= k < |target.args|
      ensures At(PlacedArgs(target), o, s, env)[k] == Cell(target, env)[k]
    {
      AtIs(PlacedArgs(target), o, s, env, k);
      SubstExprsAt(target.args, sub, k);
      if target.args[k].Var? {
        IndexSubAt(target.args, k);
        VarPlaced(target.args[k].name, sub, "V" + Decimal(k), Now(o, s), env);
      } else {
        assert FreeVars(target.args[k]) == {};
        ClosedKept(target.args[k], sub);
      }
    }
  }

  lemma VarPlaced(x: string, sub: Subst, y: string, v: Val, env: Env)
    requires x in sub && sub[x] == Var(y)
    ensures Eval(SubstExpr(Var(x), sub), v, env) == ValueOf(env, y)
  {
  }

  /** The addressed cells get new structs that meet the chain for all values of the variables; other cells stay. */
  ghost predicate FieldAssigned(fields: Fields, target: Target, steps: seq<Step>, rhs: Expr, o: State, s: State,
                                t: State)
  {
    && (forall a: seq<int> :: |a| == |target.args| && !Addressed(target.args, Now(o, s), a) ==>
          t(target.x)(a) == s(target.x)(a))
    && forall env: Env :: ChainMet(fields, steps, rhs, o, s, env, t(target.x)(At(target.args, o, s, env)),
                                   s(target.x)(At(target.args, o, s, env)))
  }

  /** With different variables at the root, the new structs are the values of the addressed cells. */
  lemma FieldDirect(fields: Fields, target: Target, steps: seq<Step>, rhs: Expr, o: State, s: State, t: State)
    requires FieldOk(target, steps, rhs) && Simple(target.args) && Different(target.args)
    ensures Rel(FieldUpdate(fields, target, steps, rhs), o, s, t) <==>
            Framed(target.x, s, t) && FieldAssigned(fields, target, steps, rhs, o, s, t)
  {
    hide Rel, FieldUpdate, Eval, ChainMet, At, Cell, PlacedArgs, Hit, FieldOk, Addressed;
    FieldExact(fields, target, steps, rhs, o, s, t);
    if given: Table :| FieldMet(fields, target, steps, rhs, o, s, t, given) {
      MetAssigned(fields, target, steps, rhs, o, s, t, given);
    }
    if FieldAssigned(fields, target, steps, rhs, o, s, t) {
      forall env: Env
        ensures EnvMet(fields, target, steps, rhs, o, s, t, t(target.x), env)
      {
        var a := Cell(target, env);
        HitAddressed(target.args, o, s, env, a);
        if Hit(target.args, Now(o, s), env) { PlacedHit(target, o, s, env); }
      }
      assert FieldMet(fields, target, steps, rhs, o, s, t, t(target.x));
    }
  }

  lemma MetAssigned(fields: Fields, target: Target, steps: seq<Step>, rhs: Expr, o: State, s: State, t: State,
                    given: Table)
    requires Simple(target.args) && Different(target.args) && FieldMet(fields, target, steps, rhs, o, s, t, given)
    ensures FieldAssigned(fields, target, steps, rhs, o, s, t)
  {
    hide Eval, ChainMet, At, Cell, PlacedArgs, Hit, Addressed;
    forall a: seq<int> | |a| == |target.args|
      ensures t(target.x)(a) == if Addressed(target.args, Now(o, s), a) then given(a) else s(target.x)(a)
    {
      var env := HoleEnv("V", a);
      CellOf(target, a);
      HitAddressed(target.args, o, s, env, a);
      if Hit(target.args, Now(o, s), env) { PlacedHit(target, o, s, env); }
      assert EnvMet(fields, target, steps, rhs, o, s, t, given, env);
    }
    forall env: Env
      ensures ChainMet(fields, steps, rhs, o, s, env, t(target.x)(At(target.args, o, s, env)),
                       s(target.x)(At(target.args, o, s, env)))
    {
      AtAddressed(target.args, o, s, env);
      assert EnvMet(fields, target, steps, rhs, o, s, t, given, env);
    }
  }

  // ----- variables that are no placeholders -----

  /** The name of a placeholder after the first. */
  function RestName(k: nat): string
  {
    "V" + Decimal(k + 1)
  }

  ghost predicate NoHoles(xs: set<string>)
  {
    forall k: nat :: RestName(k) !in xs
  }

  ghost predicate NamesOk(target: Target, steps: seq<Step>, rhs: Expr)
  {
    && NoHoles(FreeVarsAll(target.args)) && NoHoles(FreeVars(rhs))
    && forall j :: 0 <= j < |steps| ==> NoHoles(FreeVarsAll(steps[j].args))
  }

  /** The environment with the placeholders after the first set. */
  lemma {:induction false} Mixed(env: Env, b: seq<int>) returns (r: Env)
    ensures HoldsRest(b, r)
    ensures forall x :: (forall k: nat :: k < |b| ==> x != RestName(k)) ==> ValueOf(r, x) == ValueOf(env, x)
  {
    r := env;
    if b != [] {
      var n := |b| - 1;
      r := Mixed(env, b[..n]);
      HolesApart("V", n + 1);
      forall k: nat | k < n
        ensures ValueOf(r["V" + Decimal(n + 1) := b[n]], "V" + Decimal(k + 1)) == b[k]
      {
        assert b[..n][k] == b[k];
      }
      forall x | forall k: nat :: k < |b| ==> x != RestName(k)
        ensures ValueOf(r["V" + Decimal(n + 1) := b[n]], x) == ValueOf(env, x)
      {
        assert x != RestName(n);
      }
      r := r["V" + Decimal(n + 1) := b[n]];
    }
  }

  /** The environments agree on all variables of the assignment. */
  ghost predicate Alike(steps: seq<Step>, j: nat, env: Env, env': Env)
    requires j <= |steps|
  {
    forall k :: 0 <= k < j ==> SameEnv(env, env', FreeVarsAll(steps[k].args))
  }

  lemma AtAlike(args: seq<Expr>, o: State, s: State, env: Env, env': Env)
    requires SameEnv(env, env', FreeVarsAll(args))
    ensures At(args, o, s, env) == At(args, o, s, env')
  {
    EvalAllSameEnv(args, Now(o, s), env, env');
  }

  lemma {:induction false} ReadAlike(steps: seq<Step>, j: nat, o: State, s: State, env: Env, env': Env, r: int)
    requires j <= |steps| && Alike(steps, j, env, env')
    ensures ReadAt(steps, j, o, s, env, r) == ReadAt(steps, j, o, s, env', r)
  {
    if j > 0 {
      ReadAlike(steps, j - 1, o, s, env, env', r);
      AtAlike(steps[j - 1].args, o, s, env, env');
    }
  }

  lemma {:induction false} FreeOfAll(args: seq<Expr>, k: nat)
    requires k < |args|
    ensures FreeVars(args[k]) <= FreeVarsAll(args)
  {
    if k < |args| - 1 { FreeOfAll(args[..|args| - 1], k); }
  }

  lemma ArgHitAlike(args: seq<Expr>, b: seq<int>, o: State, s: State, env: Env, env': Env)
    requires |b| == |args| && SameEnv(env, env', FreeVarsAll(args))
    ensures ArgHit(args, b, o, s, env) <==> ArgHit(args, b, o, s, env')
  {
    hide Eval;
    forall k | 0 <= k < |args|
      ensures Eval(args[k], Now(o, s), env) == Eval(args[k], Now(o, s), env')
    {
      FreeOfAll(args, k);
      EvalSameEnv(args[k], Now(o, s), env, env');
    }
  }

  lemma RestIs(b: seq<int>, env: Env)
    requires HoldsRest(b, env)
    ensures RestOf(|b|, env) == b
  {
    var c := RestOf(|b|, env);
    forall k: nat | k < |b|
      ensures c[k] == b[k]
    {
      assert ValueOf(env, "V" + Decimal(k + 1)) == b[k];
    }
  }

  lemma NamesApart(xs: set<string>, env: Env, env': Env, n: nat)
    requires NoHoles(xs)
    requires forall x :: (forall k: nat :: k < n ==> x != RestName(k)) ==> ValueOf(env', x) == ValueOf(env, x)
    ensures SameEnv(env, env', xs)
  {
  }

  /** With other placeholders, the chain reads the same. */
  lemma MixedAlike(target: Target, steps: seq<Step>, rhs: Expr, o: State, s: State, env: Env, b: seq<int>)
    returns (r: Env)
    requires NamesOk(target, steps, rhs)
    ensures HoldsRest(b, r) && At(target.args, o, s, r) == At(target.args, o, s, env) && Alike(steps, |steps|, env, r)
  {
    r := Mixed(env, b);
    NamesApart(FreeVarsAll(target.args), env, r, |b|);
    AtAlike(target.args, o, s, env, r);
    forall k | 0 <= k < |steps|
      ensures SameEnv(env, r, FreeVarsAll(steps[k].args))
    {
      NamesApart(FreeVarsAll(steps[k].args), env, r, |b|);
    }
  }

  /** The new and the old struct at the j-th level of the chain. */
  ghost function NewAt(target: Target, steps: seq<Step>, j: nat, o: State, s: State, t: State, env: Env): int
    requires j <= |steps|
  {
    ReadAt(steps, j, o, s, env, t(target.x)(At(target.args, o, s, env)))
  }

  ghost function OldAt(target: Target, steps: seq<Step>, j: nat, o: State, s: State, env: Env): int
    requires j <= |steps|
  {
    ReadAt(steps, j, o, s, env, s(target.x)(At(target.args, o, s, env)))
  }

  /** What a level asks, for all arguments of the destructor. */
  lemma LevelKept(fields: Fields, target: Target, steps: seq<Step>, rhs: Expr, o: State, s: State, t: State, j: nat,
                  env: Env, d: Id, b: seq<int>)
    requires FieldAssigned(fields, target, steps, rhs, o, s, t) && NamesOk(target, steps, rhs) && j < |steps|
    requires (d == steps[j].d && |b| == |steps[j].args| && !ArgHit(steps[j].args, b, o, s, env))
             || (d in FieldsOf(fields, steps[j].d) && d != steps[j].d && |b| + 1 == d.arity)
    ensures s(d)([NewAt(target, steps, j, o, s, t, env)] + b) == s(d)([OldAt(target, steps, j, o, s, env)] + b)
  {
    hide Eval, At, ReadAt, ArgHit, Addressed, NamesOk;
    var r := MixedAlike(target, steps, rhs, o, s, env, b);
    var a := At(target.args, o, s, env);
    ReadAlike(steps, j, o, s, env, r, t(target.x)(a));
    ReadAlike(steps, j, o, s, env, r, s(target.x)(a));
    ArgHitAlike(steps[j].args, RestOf(|steps[j].args|, r), o, s, env, r);
    RestIs(b, r);
    assert ChainMet(fields, steps, rhs, o, s, r, t(target.x)(a), s(target.x)(a));
    assert LevelAt(fields, steps[j], o, s, r, NewAt(target, steps, j, o, s, t, env),
                   OldAt(target, steps, j, o, s, env));
  }

  // ----- paths -----

  /** A destructor and the values of its other arguments. */
  datatype Field = Field(d: Id, args: seq<int>)

  /** What a path of fields reads from a struct. */
  ghost function Read(s: State, r: int, path: seq<Field>): int
  {
    if path == [] then r else
    var n := |path| - 1;
    s(path[n].d)([Read(s, r, path[..n])] + path[n].args)
  }

  /** The addressed path. */
  ghost function Address(steps: seq<Step>, o: State, s: State, env: Env): (path: seq<Field>)
    ensures |path| == |steps|
    ensures forall j :: 0 <= j < |steps| ==> path[j] == Field(steps[j].d, At(steps[j].args, o, s, env))
  {
    seq(|steps|, j requires 0 <= j < |steps| => Field(steps[j].d, At(steps[j].args, o, s, env)))
  }

  /** The path follows the addressed one for j fields and then takes another field of the same struct, or the same
      destructor at arguments that no values of the variables address. */
  ghost predicate TurnsOff(fields: Fields, steps: seq<Step>, path: seq<Field>, j: nat, o: State, s: State,
                           env: Env)
  {
    && j < |path| && j < |steps| && path[..j] == Address(steps, o, s, env)[..j]
    && var d, f := steps[j].d, path[j];
       if f.d == d then |f.args| == |steps[j].args| && !ArgHit(steps[j].args, f.args, o, s, env)
       else f.d in FieldsOf(fields, d) && |f.args| + 1 == f.d.arity
  }

  lemma {:induction false} ReadAddress(steps: seq<Step>, j: nat, o: State, s: State, env: Env, r: int)
    requires j <= |steps|
    ensures Read(s, r, Address(steps, o, s, env)[..j]) == ReadAt(steps, j, o, s, env, r)
  {
    if j > 0 {
      ReadAddress(steps, j - 1, o, s, env, r);
      assert Address(steps, o, s, env)[..j][..j - 1] == Address(steps, o, s, env)[..j - 1];
    }
  }

  lemma {:induction false} ReadFrom(s: State, l: int, r: int, path: seq<Field>, j: nat)
    requires j <= |path| && Read(s, l, path[..j]) == Read(s, r, path[..j])
    ensures Read(s, l, path) == Read(s, r, path)
    decreases |path| - j
  {
    if j < |path| {
      assert path[..j + 1][..j] == path[..j] && path[..j + 1][j] == path[j];
      ReadFrom(s, l, r, path, j + 1);
    } else {
      assert path[..j] == path;
    }
  }

  /** The path does not read the root symbol, which is no destructor. */
  predicate Elsewhere(x: Id, path: seq<Field>)
  {
    forall k :: 0 <= k < |path| ==> path[k].d != x
  }

  /** The root is no destructor. */
  predicate RootApart(fields: Fields, target: Target, steps: seq<Step>)
  {
    (forall j :: 0 <= j < |steps| ==> steps[j].d != target.x) && forall d :: d in fields ==> target.x !in fields[d]
  }

  lemma {:induction false} ReadSame(x: Id, s: State, t: State, l: int, path: seq<Field>)
    requires Elsewhere(x, path) && forall i: Id :: i != x ==> t(i) == s(i)
    ensures Read(t, l, path) == Read(s, l, path)
  {
    if path != [] { ReadSame(x, s, t, l, path[..|path| - 1]); }
  }

  lemma TurnRead(fields: Fields, steps: seq<Step>, path: seq<Field>, j: nat, o: State, s: State, env: Env, l: int,
                 r: int)
    requires TurnsOff(fields, steps, path, j, o, s, env)
    requires s(path[j].d)([ReadAt(steps, j, o, s, env, l)] + path[j].args) ==
             s(path[j].d)([ReadAt(steps, j, o, s, env, r)] + path[j].args)
    ensures Read(s, l, path) == Read(s, r, path)
  {
    hide ReadAt, At, ArgHit;
    ReadAddress(steps, j, o, s, env, l);
    ReadAddress(steps, j, o, s, env, r);
    assert path[..j + 1][..j] == path[..j] && path[..j + 1][j] == path[j];
    assert Read(s, l, path[..j + 1]) == Read(s, r, path[..j + 1]);
    ReadFrom(s, l, r, path, j + 1);
  }

  /** After a field assignment, for all values of the variables, the addressed path reads the value of the right-hand
      side, and every path that turns off it reads what it read before. */
  lemma FieldsKept(fields: Fields, target: Target, steps: seq<Step>, rhs: Expr, o: State, s: State, t: State, env: Env)
    requires FieldOk(target, steps, rhs) && Simple(target.args) && Different(target.args) && NamesOk(target, steps, rhs)
    requires RootApart(fields, target, steps) && Rel(FieldUpdate(fields, target, steps, rhs), o, s, t)
    ensures var a := At(target.args, o, s, env);
            && Read(t, t(target.x)(a), Address(steps, o, s, env)) == Eval(rhs, Now(o, s), env)
            && forall path: seq<Field>, j: nat ::
                 TurnsOff(fields, steps, path, j, o, s, env) && Elsewhere(target.x, path) ==>
                 Read(t, t(target.x)(a), path) == Read(s, s(target.x)(a), path)
  {
    hide Rel, FieldUpdate, Eval, At, Read, ReadAt, ArgHit, Addressed, NamesOk, FieldOk, LevelAt;
    FieldDirect(fields, target, steps, rhs, o, s, t);
    var a := At(target.args, o, s, env);
    var l, r := t(target.x)(a), s(target.x)(a);
    var whole := Address(steps, o, s, env);
    assert whole[..|steps|] == whole;
    ReadAddress(steps, |steps|, o, s, env, l);
    assert ChainMet(fields, steps, rhs, o, s, env, l, r);
    ReadSame(target.x, s, t, l, whole);
    forall path: seq<Field>, j: nat | TurnsOff(fields, steps, path, j, o, s, env) && Elsewhere(target.x, path)
      ensures Read(t, l, path) == Read(s, r, path)
    {
      LevelKept(fields, target, steps, rhs, o, s, t, j, env, path[j].d, path[j].args);
      TurnRead(fields, steps, path, j, o, s, env, l, r);
      ReadSame(target.x, s, t, l, path);
    }
  }

  // ----- the new state is determined -----

  /** Two structs that all destructors read alike. */
  ghost predicate ReadAllAlike(fields: Fields, d: Id, n: nat, s: State, l: int, r: int)
  {
    && (forall b: seq<int> :: |b| == n ==> s(d)([l] + b) == s(d)([r] + b))
    && forall e, b: seq<int> :: e in FieldsOf(fields, d) && e != d && |b| + 1 == e.arity ==>
         s(e)([l] + b) == s(e)([r] + b)
  }

  /** Structs along the chain are equal if all their fields are. */
  ghost predicate Extensional(fields: Fields, steps: seq<Step>, s: State)
  {
    forall j, l, r :: 0 <= j < |steps| && ReadAllAlike(fields, steps[j].d, |steps[j].args|, s, l, r) ==> l == r
  }

  /** The variables of a destructor's arguments are different from each other and from all before. */
  predicate StepFresh(target: Target, steps: seq<Step>, j: nat)
    requires j < |steps|
  {
    && Simple(steps[j].args) && Different(steps[j].args)
    && FreeVarsAll(steps[j].args) !! FreeVarsAll(target.args)
    && forall k :: 0 <= k < j ==> FreeVarsAll(steps[j].args) !! FreeVarsAll(steps[k].args)
  }

  predicate StepsFresh(target: Target, steps: seq<Step>)
  {
    forall j :: 0 <= j < |steps| ==> StepFresh(target, steps, j)
  }

  /** The environment in which the variables among the arguments have the given values. */
  lemma {:induction false} SetVars(args: seq<Expr>, b: seq<int>, env: Env) returns (r: Env)
    requires |b| == |args| && Different(args)
    ensures forall k :: 0 <= k < |args| && args[k].Var? ==> ValueOf(r, args[k].name) == b[k]
    ensures forall x :: x !in FreeVarsAll(args) ==> ValueOf(r, x) == ValueOf(env, x)
  {
    r := env;
    if args != [] {
      var n := |args| - 1;
      var q := SetVars(args[..n], b[..n], env);
      r := if args[n].Var? then q[args[n].name := b[n]] else q;
      forall k | 0 <= k < |args| && args[k].Var?
        ensures ValueOf(r, args[k].name) == b[k]
      {
        if k < n { assert args[..n][k] == args[k] && b[..n][k] == b[k]; }
      }
    }
  }

  /** Arguments that are hit are the values of the arguments in some environment. */
  lemma HitAt(args: seq<Expr>, b: seq<int>, o: State, s: State, env: Env) returns (r: Env)
    requires |b| == |args| && Simple(args) && Different(args) && ArgHit(args, b, o, s, env)
    ensures At(args, o, s, r) == b
    ensures forall x :: x !in FreeVarsAll(args) ==> ValueOf(r, x) == ValueOf(env, x)
  {
    hide Eval, FreeVarsAll;
    r := SetVars(args, b, env);
    forall k | 0 <= k < |args|
      ensures At(args, o, s, r)[k] == b[k]
    {
      AtIs(args, o, s, r, k);
      if args[k].Var? {
        VarValue(args[k].name, Now(o, s), r);
      } else {
        ClosedEval(args[k], Now(o, s), env);
        ClosedEval(args[k], Now(o, s), r);
      }
    }
  }

  lemma VarValue(x: string, v: Val, env: Env)
    ensures Eval(Var(x), v, env) == ValueOf(env, x)
  {
  }

  /** Changing the variables of a later destructor does not change what comes before. */
  lemma BeforeAlike(target: Target, steps: seq<Step>, j: nat, o: State, s: State, t: State, env: Env, env': Env)
    requires j < |steps| && StepFresh(target, steps, j)
    requires forall x :: x !in FreeVarsAll(steps[j].args) ==> ValueOf(env', x) == ValueOf(env, x)
    ensures NewAt(target, steps, j, o, s, t, env') == NewAt(target, steps, j, o, s, t, env)
  {
    hide ReadAt, At, FreeVarsAll;
    AtAlike(target.args, o, s, env', env);
    ReadAlike(steps, j, o, s, env', env, t(target.x)(At(target.args, o, s, env)));
  }

  /** What two results of one update have along the chain is equal, from the end of the chain to the root. */
  lemma {:induction false} ChainDetermined(fields: Fields, target: Target, steps: seq<Step>, rhs: Expr, o: State,
                                           s: State, t: State, t': State, j: nat, env: Env)
    requires FieldAssigned(fields, target, steps, rhs, o, s, t) && FieldAssigned(fields, target, steps, rhs, o, s, t')
    requires NamesOk(target, steps, rhs) && StepsFresh(target, steps) && Extensional(fields, steps, s) && j <= |steps|
    ensures NewAt(target, steps, j, o, s, t, env) == NewAt(target, steps, j, o, s, t', env)
    decreases |steps| - j
  {
    hide Eval, At, ArgHit, Addressed, NamesOk, LevelAt, ReadAt, NewAt, StepFresh, FieldAssigned;
    if j == |steps| {
      LeafValue(fields, target, steps, rhs, o, s, t, env);
      LeafValue(fields, target, steps, rhs, o, s, t', env);
    } else {
      var l, r := NewAt(target, steps, j, o, s, t, env), NewAt(target, steps, j, o, s, t', env);
      var d, n := steps[j].d, |steps[j].args|;
      forall b: seq<int> | |b| == n
        ensures s(d)([l] + b) == s(d)([r] + b)
      {
        if ArgHit(steps[j].args, b, o, s, env) {
          var env' := NextIs(target, steps, j, o, s, t, t', env, b);
          ChainDetermined(fields, target, steps, rhs, o, s, t, t', j + 1, env');
        } else {
          LevelKept(fields, target, steps, rhs, o, s, t, j, env, d, b);
          LevelKept(fields, target, steps, rhs, o, s, t', j, env, d, b);
        }
      }
      forall e, b: seq<int> | e in FieldsOf(fields, d) && e != d && |b| + 1 == e.arity
        ensures s(e)([l] + b) == s(e)([r] + b)
      {
        LevelKept(fields, target, steps, rhs, o, s, t, j, env, e, b);
        LevelKept(fields, target, steps, rhs, o, s, t', j, env, e, b);
      }
      assert ReadAllAlike(fields, d, n, s, l, r);
    }
  }

  lemma LeafValue(fields: Fields, target: Target, steps: seq<Step>, rhs: Expr, o: State, s: State, t: State, env: Env)
    requires FieldAssigned(fields, target, steps, rhs, o, s, t)
    ensures NewAt(target, steps, |steps|, o, s, t, env) == Eval(rhs, Now(o, s), env)
  {
    hide Eval, At, ReadAt, LevelAt, Addressed;
    assert ChainMet(fields, steps, rhs, o, s, env, t(target.x)(At(target.args, o, s, env)),
                    s(target.x)(At(target.args, o, s, env)));
  }

  /** What the destructor reads at arguments that are hit is the next struct of the chain, for other values of its
      variables. */
  lemma NextIs(target: Target, steps: seq<Step>, j: nat, o: State, s: State, t: State, t': State, env: Env, b: seq<int>)
    returns (env': Env)
    requires j < |steps| && StepsFresh(target, steps) && |b| == |steps[j].args| && ArgHit(steps[j].args, b, o, s, env)
    ensures s(steps[j].d)([NewAt(target, steps, j, o, s, t, env)] + b) == NewAt(target, steps, j + 1, o, s, t, env')
    ensures s(steps[j].d)([NewAt(target, steps, j, o, s, t', env)] + b) == NewAt(target, steps, j + 1, o, s, t', env')
  {
    hide At, ArgHit;
    assert StepFresh(target, steps, j);
    env' := HitAt(steps[j].args, b, o, s, env);
    BeforeAlike(target, steps, j, o, s, t, env, env');
    BeforeAlike(target, steps, j, o, s, t', env, env');
  }

  /** With different variables, and if structs are equal when their fields are, the update has at most one result from
      a state. */
  lemma FieldDetermined(fields: Fields, target: Target, steps: seq<Step>, rhs: Expr, o: State, s: State, t: State,
                        t': State)
    requires FieldOk(target, steps, rhs) && Simple(target.args) && Different(target.args) && NamesOk(target, steps, rhs)
    requires StepsFresh(target, steps) && Extensional(fields, steps, s)
    requires Rel(FieldUpdate(fields, target, steps, rhs), o, s, t)
    requires Rel(FieldUpdate(fields, target, steps, rhs), o, s, t')
    ensures Framed(target.x, t, t')
    ensures forall a: seq<int> :: |a| == |target.args| ==> t(target.x)(a) == t'(target.x)(a)
  {
    hide Rel, FieldUpdate, Eval, At, ReadAt, ArgHit, NamesOk, FieldOk, StepsFresh, Extensional, ChainMet;
    FieldDirect(fields, target, steps, rhs, o, s, t);
    FieldDirect(fields, target, steps, rhs, o, s, t');
    forall a: seq<int> | |a| == |target.args|
      ensures t(target.x)(a) == t'(target.x)(a)
    {
      if Addressed(target.args, Now(o, s), a) {
        AddressedHit(target.args, a, o, s);
        var env := HitAt(target.args, a, o, s, map[]);
        ChainDetermined(fields, target, steps, rhs, o, s, t, t', 0, env);
        ReadNothing(steps, o, s, env, t(target.x)(a));
        ReadNothing(steps, o, s, env, t'(target.x)(a));
      }
    }
  }

  lemma AddressedHit(args: seq<Expr>, a: seq<int>, o: State, s: State)
    requires |a| == |args| && Addressed(args, Now(o, s), a)
    ensures ArgHit(args, a, o, s, map[])
  {
  }

  lemma ReadNothing(steps: seq<Step>, o: State, s: State, env: Env, r: int)
    ensures ReadAt(steps, 0, o, s, env, r) == r
  {
  }

  // ----- a repeated variable -----

  ghost predicate Agreeing(x: Id, n: nat, t: State, t': State)
  {
    forall a: seq<int> :: |a| == n ==> t(x)(a) == t'(x)(a)
  }

  /** Whatever is stored, the new structs are determined. */
  ghost predicate Determined(fields: Fields, target: Target, steps: seq<Step>)
  {
    forall rhs: Expr, o: State, s: State, t: State, t': State ::
      StateExpr(rhs) && NoHoles(FreeVars(rhs)) && Extensional(fields, steps, s)
      && Rel(FieldUpdate(fields, target, steps, rhs), o, s, t) && Rel(FieldUpdate(fields, target, steps, rhs), o, s, t')
      ==> Agreeing(target.x, |target.args|, t, t')
  }

  /** The list that is 1 at p and 0 elsewhere. */
  function Unit(n: nat, p: nat): (b: seq<int>)
    ensures |b| == n
  {
    seq(n, k requires 0 <= k < n => if k == p then 1 else 0)
  }

  /** d reads the struct itself at the special arguments, and 0 at all others. */
  ghost function Reading(d: Id, special: seq<int>): State
  {
    (i: Id) => if i == d then ((c: seq<int>) => if c != [] && c[1..] == special then c[0] else 0)
               else ((c: seq<int>) => 0)
  }

  /** The root is v at the cell of zeros, and 0 elsewhere. */
  ghost function Rooted(s: State, x: Id, zeros: seq<int>, v: int): State
  {
    (i: Id) => if i == x then ((a: seq<int>) => if a == zeros then v else 0) else s(i)
  }

  lemma ReadingIs(d: Id, special: seq<int>, l: int, b: seq<int>)
    ensures Reading(d, special)(d)([l] + b) == if b == special then l else 0
    ensures forall i: Id, c: seq<int> :: i != d ==> Reading(d, special)(i)(c) == 0
  {
    assert ([l] + b)[1..] == b;
  }

  lemma ReadingExtensional(fields: Fields, step: Step, special: seq<int>)
    requires |special| == |step.args|
    ensures Extensional(fields, [step], Reading(step.d, special))
  {
    hide Reading;
    var s := Reading(step.d, special);
    forall j, l, r | 0 <= j < 1 && ReadAllAlike(fields, [step][j].d, |[step][j].args|, s, l, r)
      ensures l == r
    {
      ReadingIs(step.d, special, l, special);
      ReadingIs(step.d, special, r, special);
      assert s(step.d)([l] + special) == s(step.d)([r] + special);
    }
  }

  /** Where no values of the variables address the special arguments of the struct at the cell of zeros, that struct
      may be anything. */
  lemma RootedResult(fields: Fields, target: Target, step: Step, p: nat, o: State, v: int)
    requires AllVars(target.args) && Different(target.args) && AllVars(step.args) && step.d != target.x
    requires var s := Reading(step.d, Unit(|step.args|, p));
             forall env: Env :: At(step.args, o, s, env) == Unit(|step.args|, p) ==>
               At(target.args, o, s, env) != Unit(|target.args|, |target.args|)
    ensures var s := Reading(step.d, Unit(|step.args|, p));
            Rel(FieldUpdate(fields, target, [step], Lit(0)), o, s,
                Rooted(s, target.x, Unit(|target.args|, |target.args|), v))
  {
    hide Rel, FieldUpdate, Unit, At, Reading, RestOf;
    var special, zeros := Unit(|step.args|, p), Unit(|target.args|, |target.args|);
    var s := Reading(step.d, special);
    var t := Rooted(s, target.x, zeros, v);
    VarsSimple(target, step);
    forall env: Env
      ensures ChainMet(fields, [step], Lit(0), o, s, env, t(target.x)(At(target.args, o, s, env)),
                       s(target.x)(At(target.args, o, s, env)))
    {
      var a, b := At(target.args, o, s, env), At(step.args, o, s, env);
      ReadingIs(step.d, special, t(target.x)(a), b);
      ReadingIs(step.d, special, s(target.x)(a), b);
      AllVarsHit(step.args, RestOf(|step.args|, env), o, s, env);
      assert t(target.x)(a) == if a == zeros then v else 0;
    }
    forall a: seq<int> | |a| == |target.args|
      ensures Addressed(target.args, Now(o, s), a)
    {
    }
    FieldDirect(fields, target, [step], Lit(0), o, s, t);
  }

  lemma VarsSimple(target: Target, step: Step)
    requires AllVars(target.args) && AllVars(step.args)
    ensures Simple(target.args) && Simple(step.args) && FieldOk(target, [step], Lit(0))
  {
    SimpleState(target.args);
    SimpleState(step.args);
  }

  lemma VarAt(args: seq<Expr>, o: State, s: State, env: Env, k: nat)
    requires k < |args| && args[k].Var?
    ensures At(args, o, s, env)[k] == ValueOf(env, args[k].name)
  {
    AtIs(args, o, s, env, k);
    VarValue(args[k].name, Now(o, s), env);
  }

  lemma {:induction false} FreeOfVars(args: seq<Expr>, x: string)
    requires AllVars(args) && x in FreeVarsAll(args)
    ensures exists k :: 0 <= k < |args| && args[k] == Var(x)
  {
    var n := |args| - 1;
    if args[n] != Var(x) {
      FreeOfVars(args[..n], x);
      var k :| 0 <= k < n && args[..n][k] == Var(x);
      assert args[k] == Var(x);
    }
  }

  /** A repeated variable leaves some arguments of the destructor unaddressed. */
  lemma Unaddressed(target: Target, step: Step) returns (p: nat)
    requires AllVars(target.args) && AllVars(step.args) && !StepFresh(target, [step], 0)
    ensures forall o: State, s: State, env: Env :: At(step.args, o, s, env) == Unit(|step.args|, p) ==>
              At(target.args, o, s, env) != Unit(|target.args|, |target.args|)
  {
    hide FreeVarsAll, At;
    VarsSimple(target, step);
    var q: nat, same: bool;
    if !Different(step.args) {
      var i, k :| 0 <= i < k < |step.args| && step.args[i].name == step.args[k].name;
      p, q, same := i, k, true;
    } else {
      var x :| x in FreeVarsAll(step.args) && x in FreeVarsAll(target.args);
      FreeOfVars(step.args, x);
      FreeOfVars(target.args, x);
      p :| 0 <= p < |step.args| && step.args[p] == Var(x);
      q :| 0 <= q < |target.args| && target.args[q] == Var(x);
      same := false;
    }
    forall o: State, s: State, env: Env | At(step.args, o, s, env) == Unit(|step.args|, p)
      ensures At(target.args, o, s, env) != Unit(|target.args|, |target.args|)
    {
      VarAt(step.args, o, s, env, p);
      if same { VarAt(step.args, o, s, env, q); } else { VarAt(target.args, o, s, env, q); }
    }
  }

  /** a(X).d(X) := 0 leaves what d reads at other arguments open, and so the struct. */
  lemma FieldLoose(fields: Fields, target: Target, step: Step, o: State) returns (s: State, t: State, t': State)
    requires AllVars(target.args) && Different(target.args) && AllVars(step.args) && step.d != target.x
    requires !StepFresh(target, [step], 0)
    ensures Extensional(fields, [step], s) && !Agreeing(target.x, |target.args|, t, t')
    ensures Rel(FieldUpdate(fields, target, [step], Lit(0)), o, s, t)
    ensures Rel(FieldUpdate(fields, target, [step], Lit(0)), o, s, t')
  {
    hide Rel, FieldUpdate, Unit, At, Reading, StepFresh, Extensional;
    var p := Unaddressed(target, step);
    var special, zeros := Unit(|step.args|, p), Unit(|target.args|, |target.args|);
    s := Reading(step.d, special);
    t, t' := Rooted(s, target.x, zeros, 0), Rooted(s, target.x, zeros, 1);
    ReadingExtensional(fields, step, special);
    RootedResult(fields, target, step, p, o, 0);
    RootedResult(fields, target, step, p, o, 1);
    assert t(target.x)(zeros) == 0 && t'(target.x)(zeros) == 1;
  }

  /** For one destructor at variables: the new structs are determined exactly if its variables are different from each
      other and from those of the root. */
  lemma FreshExact(fields: Fields, target: Target, step: Step)
    requires AllVars(target.args) && Different(target.args) && AllVars(step.args) && step.d != target.x
    requires NoHoles(FreeVarsAll(target.args)) && NoHoles(FreeVarsAll(step.args))
    ensures Determined(fields, target, [step]) <==> StepFresh(target, [step], 0)
  {
    hide Rel, FieldUpdate, StepFresh, Extensional, FreeVarsAll, AllVars;
    VarsSimple(target, step);
    if StepFresh(target, [step], 0) {
      forall rhs: Expr, o: State, s: State, t: State, t': State |
        StateExpr(rhs) && NoHoles(FreeVars(rhs)) && Extensional(fields, [step], s)
        && Rel(FieldUpdate(fields, target, [step], rhs), o, s, t)
        && Rel(FieldUpdate(fields, target, [step], rhs), o, s, t')
        ensures Agreeing(target.x, |target.args|, t, t')
      {
        FieldDetermined(fields, target, [step], rhs, o, s, t, t');
      }
    } else {
      var o: State := (i: Id) => ((c: seq<int>) => 0);
      var s, t, t' := FieldLoose(fields, target, step, o);
      LitNoHoles();
    }
  }

  lemma LitNoHoles()
    ensures StateExpr(Lit(0)) && NoHoles(FreeVars(Lit(0)))
  {
  }
}
