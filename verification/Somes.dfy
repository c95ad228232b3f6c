/**
 "if some x. f": choosing a witness, possibly one that minimizes or maximizes an index.
 */
module Somes {
  import opened Names
  import opened Logic
  import opened ClauseOps
  import opened Updates
  import opened Hiding
  import opened Substitution
  import opened Actions
  import opened Runs
  import opened Equivariance
  import opened Atoms

  // ----- parameters become variables -----

  /** The k-th parameter becomes the variable Vk. */
  function ParamSub(params: seq<Id>): (sub: map<Sym, Expr>)
    ensures forall x :: x in sub <==> x.kind.Base? && x.id in params
  {
    if params == [] then map[] else
    var n := |params| - 1;
    var sub := ParamSub(params[..n]);
    assert params == params[..n] + [params[n]];
    sub[BaseSym(params[n]) := Var("V" + Decimal(n))]
  }

  /** Replaces constants by terms. */
  function SubstConsts(e: Expr, sub: map<Sym, Expr>): Expr
    decreases e, 1
  {
    match e
    case Var(_) => e
    case Lit(_) => e
    case App(f, args) => if f in sub && args == [] then sub[f] else App(f, SubstConstsAll(args, sub))
    case Not(a) => Not(SubstConsts(a, sub))
    case Op(op, l, r) => Op(op, SubstConsts(l, sub), SubstConsts(r, sub))
    case Ite(c, t, f) => Ite(SubstConsts(c, sub), SubstConsts(t, sub), SubstConsts(f, sub))
    case Quant(all, x, b) => Quant(all, x, SubstConsts(b, sub))
  }

  function SubstConstsAll(es: seq<Expr>, sub: map<Sym, Expr>): (r: seq<Expr>)
    ensures |r| == |es|
    decreases es, 0
  {
    if es == [] then [] else SubstConstsAll(es[..|es| - 1], sub) + [SubstConsts(es[|es| - 1], sub)]
  }

  /** The parameters occur as constants only. */
  predicate Constants(e: Expr, params: seq<Id>)
    decreases e, 1
  {
    match e
    case Var(_) => true
    case Lit(_) => true
    case App(f, args) => (f.kind.Base? && f.id in params ==> args == []) && AllConstants(args, params)
    case Not(a) => Constants(a, params)
    case Op(_, l, r) => Constants(l, params) && Constants(r, params)
    case Ite(c, t, f) => Constants(c, params) && Constants(t, params) && Constants(f, params)
    case Quant(_, _, b) => Constants(b, params)
  }

  predicate AllConstants(es: seq<Expr>, params: seq<Id>)
    decreases es, 0
  {
    es == [] || (AllConstants(es[..|es| - 1], params) && Constants(es[|es| - 1], params))
  }

  // ----- the two parts -----

  function Implies(a: Expr, b: Expr): Expr { Op(Disj, Not(a), b) }

  function Leq(a: Expr, b: Expr): Expr { Not(Op(Less, b, a)) }

  function Conj2(a: Expr, b: Expr): Expr { Op(Conj, a, b) }

  predicate IndexIsParam(some: SomeCond)
  {
    exists p :: p in some.params && some.index == App(BaseSym(p), [])
  }

  /** The formula assumed of the witness: the condition, and that no other witness is better. */
  function SomeFormula(some: SomeCond): Expr
  {
    var sub := ParamSub(some.params);
    var sf := SubstConsts(some.f, sub);
    var i, j := some.index, SubstConsts(some.index, sub);
    if some.optimum.Any? then some.f
    else
      var (a, b) := if some.optimum.Minimal? then (j, i) else (i, j);
      if IndexIsParam(some) then
        Conj2(some.f, Not(Conj2(sf, Conj2(Leq(a, b), Not(Op(Equals, a, b))))))
      else
        Conj2(some.f, Implies(sf, Not(Op(Less, a, b))))
  }

  function NoneFormula(some: SomeCond): Expr
  {
    Not(SubstConsts(some.f, ParamSub(some.params)))
  }

  function IfPart(some: SomeCond, thn: Action): Action
  {
    Local(some.params, Sequence([Assume(SomeFormula(some)), thn]))
  }

  function ElsePart(some: SomeCond, els: Action): Action
  {
    Sequence([Assume(NoneFormula(some)), els])
  }

  function Parts(some: SomeCond, thn: Action, els: Action): Action
  {
    Choice([IfPart(some, thn), ElsePart(some, els)])
  }

  /** Formula and index are closed, use the parameters as constants, and bind none of V0, V1, ...; and no
      parameter is repeated. */
  predicate SomeOk(some: SomeCond)
  {
    && (forall i, j :: 0 <= i < j < |some.params| ==> some.params[i] != some.params[j])
    && TermOk(some.f, some.params) && TermOk(some.index, some.params)
  }

  predicate TermOk(e: Expr, params: seq<Id>)
  {
    Closed(e) && StateExpr(e) && Constants(e, params) && BindsNone(e, HoleNames("V", |params|))
  }

  // ----- meaning of the substitution -----

  /** v' reads the parameters as the environment reads the variables that replace them. */
  ghost predicate ReadsAs(params: seq<Id>, v: Val, v': Val, env: Env)
  {
    && (forall x: Sym :: (x.kind.Base? && x.id !in params) || x.kind.Old? ==> v(x) == v'(x))
    && (forall k: nat :: k < |params| ==> v'(BaseSym(params[k]))([]) == ValueOf(env, "V" + Decimal(k)))
  }

  lemma {:induction false} SubAt(params: seq<Id>, x: Sym, v: Val, v': Val, env: Env)
    requires ReadsAs(params, v, v', env) && x in ParamSub(params)
    ensures Eval(ParamSub(params)[x], v, env) == v'(x)([])
  {
    var n := |params| - 1;
    if x != BaseSym(params[n]) {
      var sub := ParamSub(params[..n]);
      assert x in sub;
      SubAtPrefix(params, n, x, v, v', env);
    }
  }

  lemma {:induction false} SubAtPrefix(params: seq<Id>, n: nat, x: Sym, v: Val, v': Val, env: Env)
    requires n <= |params| && ReadsAs(params, v, v', env) && x in ParamSub(params[..n])
    ensures Eval(ParamSub(params[..n])[x], v, env) == v'(x)([])
  {
    assert n > 0;
    assert params[..n][..n - 1] == params[..n - 1];
    if x != BaseSym(params[n - 1]) {
      SubAtPrefix(params, n - 1, x, v, v', env);
    }
  }

  lemma {:induction false} SubstConstsMeaning(e: Expr, params: seq<Id>, v: Val, v': Val, env: Env)
    requires ReadsAs(params, v, v', env) && StateExpr(e) && Constants(e, params) &&
             BindsNone(e, HoleNames("V", |params|))
    ensures Eval(SubstConsts(e, ParamSub(params)), v, env) == Eval(e, v', env)
    decreases e, 1
  {
    match e
    case Var(_) =>
    case Lit(_) =>
    case App(f, args) =>
      SubstConstsAllMeaning(args, params, v, v', env);
      if f in ParamSub(params) { SubAt(params, f, v, v', env); }
    case Not(a) => SubstConstsMeaning(a, params, v, v', env);
    case Op(_, l, r) => SubstConstsMeaning(l, params, v, v', env); SubstConstsMeaning(r, params, v, v', env);
    case Ite(c, t, f) =>
      SubstConstsMeaning(c, params, v, v', env);
      SubstConstsMeaning(t, params, v, v', env);
      SubstConstsMeaning(f, params, v, v', env);
    case Quant(_, x, b) =>
      forall n: int
        ensures Eval(SubstConsts(b, ParamSub(params)), v, Bind(env, x, n)) == Eval(b, v', Bind(env, x, n))
      {
        assert forall k: nat :: k < |params| ==> "V" + Decimal(k) in HoleNames("V", |params|);
        SubstConstsMeaning(b, params, v, v', Bind(env, x, n));
      }
  }

  lemma {:induction false} SubstConstsAllMeaning(es: seq<Expr>, params: seq<Id>, v: Val, v': Val, env: Env)
    requires ReadsAs(params, v, v', env) && AllConstants(es, params) && BindNone(es, HoleNames("V", |params|))
    requires forall x :: x in SymsAll(es) ==> x.kind.Base? || x.kind.Old?
    ensures EvalAll(SubstConstsAll(es, ParamSub(params)), v, env) == EvalAll(es, v', env)
    decreases es, 0
  {
    if es != [] {
      SubstConstsAllMeaning(es[..|es| - 1], params, v, v', env);
      SubstConstsMeaning(es[|es| - 1], params, v, v', env);
      var r := SubstConstsAll(es, ParamSub(params));
      assert r[..|r| - 1] == SubstConstsAll(es[..|es| - 1], ParamSub(params));
    }
  }

  // ----- witnesses and environments -----

  /** The state in which the parameters have the values of the variables. */
  lemma {:induction false} WitnessOf(params: seq<Id>, s: State, env: Env) returns (w: State)
    requires forall i, j :: 0 <= i < j < |params| ==> params[i] != params[j]
    ensures SameOff(params, w, s)
    ensures forall k: nat :: k < |params| ==> w(params[k])([]) == ValueOf(env, "V" + Decimal(k))
  {
    if params == [] {
      w := s;
    } else {
      var n := |params| - 1;
      var u := WitnessOf(params[..n], s, env);
      w := Mixed([params[n]], (i: Id) => ConstTable(ValueOf(env, "V" + Decimal(n))), u);
      assert forall k: nat :: k < n ==> u(params[..n][k])([]) == ValueOf(env, "V" + Decimal(k));
    }
  }

  lemma EnvOf(params: seq<Id>, w: State) returns (env: Env)
    ensures forall k: nat :: k < |params| ==> w(params[k])([]) == ValueOf(env, "V" + Decimal(k))
  {
    var a := seq(|params|, k requires 0 <= k < |params| => w(params[k])([]));
    env := HoleEnv("V", a);
    assert forall k: nat :: k < |a| ==> ValueOf(env, "V" + Decimal(k)) == a[k];
  }

  ghost predicate Matches(params: seq<Id>, w: State, env: Env)
  {
    forall k: nat :: k < |params| ==> w(params[k])([]) == ValueOf(env, "V" + Decimal(k))
  }

  lemma TermAt(e: Expr, params: seq<Id>, o: State, w: State, w': State, env: Env)
    requires TermOk(e, params) && SameOff(params, w, w') && Matches(params, w', env)
    ensures Eval(SubstConsts(e, ParamSub(params)), Now(o, w), env) == Eval(e, Now(o, w'), map[])
  {
    forall x: Sym | (x.kind.Base? && x.id !in params) || x.kind.Old?
      ensures Now(o, w)(x) == Now(o, w')(x)
    {
      MkIs(o, w, w, x);
      MkIs(o, w', w', x);
    }
    SubstConstsMeaning(e, params, Now(o, w), Now(o, w'), env);
    ClosedEval(e, Now(o, w'), env);
  }

  lemma {:induction false} SubVars(params: seq<Id>)
    ensures forall x :: x in ParamSub(params) ==> ParamSub(params)[x].Var?
  {
    if params != [] { SubVars(params[..|params| - 1]); }
  }

  lemma {:induction false} SubSymsOf(e: Expr, params: seq<Id>)
    ensures Syms(SubstConsts(e, ParamSub(params))) <= Syms(e)
    decreases e, 1
  {
    match e
    case Var(_) =>
    case Lit(_) =>
    case App(f, args) => SubVars(params); SubSymsOfAll(args, params);
    case Not(a) => SubSymsOf(a, params);
    case Op(_, l, r) => SubSymsOf(l, params); SubSymsOf(r, params);
    case Ite(c, t, f) => SubSymsOf(c, params); SubSymsOf(t, params); SubSymsOf(f, params);
    case Quant(_, _, b) => SubSymsOf(b, params);
  }

  lemma {:induction false} SubSymsOfAll(es: seq<Expr>, params: seq<Id>)
    ensures SymsAll(SubstConstsAll(es, ParamSub(params))) <= SymsAll(es)
    decreases es, 0
  {
    if es != [] {
      SubSymsOfAll(es[..|es| - 1], params);
      SubSymsOf(es[|es| - 1], params);
      var r := SubstConstsAll(es, ParamSub(params));
      assert r[..|r| - 1] == SubstConstsAll(es[..|es| - 1], ParamSub(params));
    }
  }

  // ----- meaning of the two parts -----

  predicate Better(optimum: Optimum, x: int, y: int)
  {
    match optimum
    case Any => false
    case Minimal => x < y
    case Maximal => y < x
  }

  /** The formula assumed of w, at one choice of values for the variables. */
  lemma SomeFormulaEval(some: SomeCond, v: Val, env: Env)
    ensures var sub := ParamSub(some.params);
            Eval(SomeFormula(some), v, env) != 0 <==>
            Eval(some.f, v, env) != 0 &&
            !(Eval(SubstConsts(some.f, sub), v, env) != 0 &&
              Better(some.optimum, Eval(SubstConsts(some.index, sub), v, env), Eval(some.index, v, env)))
  {
    var sub := ParamSub(some.params);
    var sf := SubstConsts(some.f, sub);
    var i, j := some.index, SubstConsts(some.index, sub);
    if !some.optimum.Any? {
      var (a, b) := if some.optimum.Minimal? then (j, i) else (i, j);
      ComparedEval(some.f, sf, a, b, v, env);
    }
  }

  lemma ComparedEval(f: Expr, sf: Expr, a: Expr, b: Expr, v: Val, env: Env)
    ensures Eval(Conj2(f, Not(Conj2(sf, Conj2(Leq(a, b), Not(Op(Equals, a, b)))))), v, env) != 0 <==>
            Eval(f, v, env) != 0 && !(Eval(sf, v, env) != 0 && Eval(a, v, env) < Eval(b, v, env))
    ensures Eval(Conj2(f, Implies(sf, Not(Op(Less, a, b)))), v, env) != 0 <==>
            Eval(f, v, env) != 0 && !(Eval(sf, v, env) != 0 && Eval(a, v, env) < Eval(b, v, env))
  {
    StrictEval(a, b, v, env);
    var strict := Conj2(Leq(a, b), Not(Op(Equals, a, b)));
    BothEval(sf, strict, v, env);
    NotEval(Conj2(sf, strict), v, env);
    BothEval(f, Not(Conj2(sf, strict)), v, env);
    NotEval(Op(Less, a, b), v, env);
    NotEval(sf, v, env);
    var implied := Implies(sf, Not(Op(Less, a, b)));
    assert Eval(implied, v, env) == Truth(Eval(Not(sf), v, env) != 0 || Eval(Not(Op(Less, a, b)), v, env) != 0);
    BothEval(f, implied, v, env);
  }

  lemma StrictEval(a: Expr, b: Expr, v: Val, env: Env)
    ensures Eval(Conj2(Leq(a, b), Not(Op(Equals, a, b))), v, env) == Truth(Eval(a, v, env) < Eval(b, v, env))
    ensures Eval(Op(Less, a, b), v, env) == Truth(Eval(a, v, env) < Eval(b, v, env))
  {
    var x, y := Eval(a, v, env), Eval(b, v, env);
    assert Eval(Op(Less, b, a), v, env) == Truth(y < x);
    assert Eval(Leq(a, b), v, env) == Truth(x <= y);
    assert Eval(Op(Equals, a, b), v, env) == Truth(x == y);
    assert Eval(Not(Op(Equals, a, b)), v, env) == Truth(x != y);
  }

  lemma BothEval(a: Expr, b: Expr, v: Val, env: Env)
    ensures Eval(Conj2(a, b), v, env) == Truth(Eval(a, v, env) != 0 && Eval(b, v, env) != 0)
  {
  }

  /** Exactly when there is no witness can the else-part be entered. */
  lemma NoneMeaning(some: SomeCond, o: State, s: State)
    requires SomeOk(some)
    ensures True(NoneFormula(some), o, s) <==> forall w: State :: !Witnesses(some, o, s, w)
  {
    hide Eval, TermOk, SubstConsts;
    var sf := SubstConsts(some.f, ParamSub(some.params));
    forall env: Env
      ensures Eval(NoneFormula(some), Now(o, s), env) != 0 <==> Eval(sf, Now(o, s), env) == 0
    {
      NotEval(sf, Now(o, s), env);
    }
    forall w: State | Witnesses(some, o, s, w)
      ensures !True(NoneFormula(some), o, s)
    {
      var env := EnvOf(some.params, w);
      TermAt(some.f, some.params, o, s, w, env);
      assert Eval(NoneFormula(some), Now(o, s), env) == 0;
    }
    forall env: Env | forall w: State :: !Witnesses(some, o, s, w)
      ensures Eval(NoneFormula(some), Now(o, s), env) != 0
    {
      var w := WitnessOf(some.params, s, env);
      TermAt(some.f, some.params, o, s, w, env);
      assert !Witnesses(some, o, s, w);
    }
  }

  lemma NotEval(e: Expr, v: Val, env: Env)
    ensures Eval(Not(e), v, env) == Truth(Eval(e, v, env) == 0)
  {
  }

  /** The then-part can be entered with exactly the picked witnesses. */
  lemma SomeMeaning(some: SomeCond, o: State, s: State, w: State)
    requires SomeOk(some) && SameOff(some.params, w, s)
    ensures True(SomeFormula(some), o, w) <==> Picked(some, o, s, w)
  {
    hide Eval, TermOk, SubstConsts, SomeFormula;
    var sub := ParamSub(some.params);
    var sf, j := SubstConsts(some.f, sub), SubstConsts(some.index, sub);
    forall env: Env
      ensures Eval(SomeFormula(some), Now(o, w), env) != 0 <==>
              Eval(some.f, Now(o, w), map[]) != 0 &&
              !(Eval(sf, Now(o, w), env) != 0 && Better(some.optimum, Eval(j, Now(o, w), env), IndexOf(some, o, w)))
    {
      SomeFormulaEval(some, Now(o, w), env);
      TermClosed(some.f, some.params, Now(o, w), env);
      TermClosed(some.index, some.params, Now(o, w), env);
    }
    if True(SomeFormula(some), o, w) {
      assert Eval(SomeFormula(some), Now(o, w), map[]) != 0;
      forall w': State | Witnesses(some, o, s, w')
        ensures !Better(some.optimum, IndexOf(some, o, w'), IndexOf(some, o, w))
      {
        var env := EnvOf(some.params, w');
        TermAt(some.f, some.params, o, w, w', env);
        TermAt(some.index, some.params, o, w, w', env);
        assert Eval(SomeFormula(some), Now(o, w), env) != 0;
      }
    }
    if Picked(some, o, s, w) {
      forall env: Env
        ensures Eval(SomeFormula(some), Now(o, w), env) != 0
      {
        var w' := WitnessOf(some.params, w, env);
        TermAt(some.f, some.params, o, w, w', env);
        TermAt(some.index, some.params, o, w, w', env);
        if Eval(sf, Now(o, w), env) != 0 { assert Witnesses(some, o, s, w'); }
      }
    }
  }

  lemma TermClosed(e: Expr, params: seq<Id>, v: Val, env: Env)
    requires TermOk(e, params)
    ensures Eval(e, v, env) == Eval(e, v, map[])
  {
    ClosedEval(e, v, env);
  }

  lemma AssumeIs(f: Expr, o: State, s: State, t: State)
    ensures Exec(Assume(f), o, s, t) <==> Same(s, t) && True(f, o, s)
    ensures !Aborts(Assume(f), o, s)
  {
    hide True;
  }

  /** An assumption followed by an action. */
  lemma GuardIs(f: Expr, a: Action, o: State, s: State, t: State)
    ensures Exec(Sequence([Assume(f), a]), o, s, t) <==> True(f, o, s) && Exec(a, o, s, t)
    ensures Aborts(Sequence([Assume(f), a]), o, s) <==> True(f, o, s) && Aborts(a, o, s)
  {
    hide Exec, Aborts, True;
    PairIs(Assume(f), a, o, s, t);
    AssumeIs(f, o, s, s);
    forall m: State
      ensures Exec(Assume(f), o, s, m) <==> Same(s, m) && True(f, o, s)
    {
      AssumeIs(f, o, s, m);
    }
    forall m: State | Same(s, m)
      ensures Exec(a, o, m, t) ==> Exec(a, o, s, t)
      ensures Aborts(a, o, m) ==> Aborts(a, o, s)
    {
      if Exec(a, o, m, t) { ExecSame(a, o, m, t, o, s, t); }
      if Aborts(a, o, m) { AbortsSame(a, o, m, o, s); }
    }
  }

  lemma LocalIs(xs: seq<Id>, a: Action, o: State, s: State, t: State)
    ensures Exec(Local(xs, a), o, s, t) <==>
            && SameOn(xs, s, t)
            && exists s1: State, t1: State :: SameOff(xs, s1, s) && SameOff(xs, t1, t) && Exec(a, o, s1, t1)
    ensures Aborts(Local(xs, a), o, s) <==> exists s1: State :: SameOff(xs, s1, s) && Aborts(a, o, s1)
  {
    hide SameOff, SameOn;
  }

  lemma ChoiceIs(a: Action, b: Action, o: State, s: State, t: State)
    ensures Exec(Choice([a, b]), o, s, t) <==> Exec(a, o, s, t) || Exec(b, o, s, t)
    ensures Aborts(Choice([a, b]), o, s) <==> Aborts(a, o, s) || Aborts(b, o, s)
  {
    assert [a, b][0] == a && [a, b][1] == b;
  }

  lemma SomeIs(some: SomeCond, thn: Action, els: Action, o: State, s: State, t: State)
    ensures Exec(IfSome(some, thn, els), o, s, t) <==>
            || (SameOn(some.params, s, t) &&
                exists w: State, t1: State ::
                  Picked(some, o, s, w) && SameOff(some.params, t1, t) && Exec(thn, o, w, t1))
            || ((forall w: State :: !Witnesses(some, o, s, w)) && Exec(els, o, s, t))
    ensures Aborts(IfSome(some, thn, els), o, s) <==>
            || (exists w: State :: Picked(some, o, s, w) && Aborts(thn, o, w))
            || ((forall w: State :: !Witnesses(some, o, s, w)) && Aborts(els, o, s))
  {
    hide SameOff, SameOn, Picked, Witnesses;
  }

  /** The two parts together run and fail exactly as "if some" does. */
  lemma PartsCorrect(some: SomeCond, thn: Action, els: Action, o: State, s: State, t: State)
    requires SomeOk(some)
    ensures Exec(Parts(some, thn, els), o, s, t) <==> Exec(IfSome(some, thn, els), o, s, t)
    ensures Aborts(Parts(some, thn, els), o, s) <==> Aborts(IfSome(some, thn, els), o, s)
  {
    hide Exec, Aborts, SameOn, Picked, Witnesses, SomeFormula, NoneFormula, SomeOk, True, SameOff;
    ChoiceIs(IfPart(some, thn), ElsePart(some, els), o, s, t);
    SomeIs(some, thn, els, o, s, t);
    var body := Sequence([Assume(SomeFormula(some)), thn]);
    LocalIs(some.params, body, o, s, t);
    GuardIs(NoneFormula(some), els, o, s, t);
    NoneMeaning(some, o, s);
    forall w: State, t1: State
      ensures Exec(body, o, w, t1) <==> True(SomeFormula(some), o, w) && Exec(thn, o, w, t1)
    {
      GuardIs(SomeFormula(some), thn, o, w, t1);
    }
    forall w: State
      ensures Aborts(body, o, w) <==> True(SomeFormula(some), o, w) && Aborts(thn, o, w)
      ensures SameOff(some.params, w, s) && True(SomeFormula(some), o, w) <==> Picked(some, o, s, w)
    {
      GuardIs(SomeFormula(some), thn, o, w, w);
      PickedOff(some, o, s, w);
    }
  }

  lemma PickedOff(some: SomeCond, o: State, s: State, w: State)
    requires SomeOk(some)
    ensures SameOff(some.params, w, s) && True(SomeFormula(some), o, w) <==> Picked(some, o, s, w)
  {
    hide SomeFormula, TermOk, True;
    if SameOff(some.params, w, s) { SomeMeaning(some, o, s, w); }
  }

  /** In every state either some witness exists and the else-part is blocked, or none does and the
      then-part is; without an index, one of the two parts can always be entered. */
  lemma ExactlyOnePart(some: SomeCond, o: State, s: State)
    requires SomeOk(some)
    ensures (exists w: State :: Picked(some, o, s, w)) ==> !True(NoneFormula(some), o, s)
    ensures some.optimum.Any? ==> ((exists w: State :: Picked(some, o, s, w)) <==> !True(NoneFormula(some), o, s))
  {
    hide NoneFormula, SomeOk, True;
    NoneMeaning(some, o, s);
    if some.optimum.Any? {
      forall w: State | Witnesses(some, o, s, w)
        ensures Picked(some, o, s, w)
      {
      }
    }
  }

  /** The witnesses' indices are bounded in the direction of the optimum. */
  ghost predicate BoundedIndex(some: SomeCond, o: State, s: State, bound: int)
  {
    forall w: State :: Witnesses(some, o, s, w) ==> !Better(some.optimum, IndexOf(some, o, w), bound)
  }

  /** An optimal witness exists when the indices are bounded. */
  lemma {:induction false} OptimumExists(some: SomeCond, o: State, s: State, bound: int, w: State) returns (best: State)
    requires BoundedIndex(some, o, s, bound) && Witnesses(some, o, s, w)
    ensures Picked(some, o, s, best)
    decreases if some.optimum.Minimal? then IndexOf(some, o, w) - bound else bound - IndexOf(some, o, w)
  {
    hide IndexOf, Witnesses;
    if z: State :| Witnesses(some, o, s, z) && Better(some.optimum, IndexOf(some, o, z), IndexOf(some, o, w)) {
      best := OptimumExists(some, o, s, bound, z);
    } else {
      best := w;
    }
  }

  /** With bounded indices too, exactly one of the two parts can be entered. */
  lemma ExactlyOneOptimum(some: SomeCond, o: State, s: State, bound: int)
    requires SomeOk(some) && BoundedIndex(some, o, s, bound)
    ensures (exists w: State :: Picked(some, o, s, w)) <==> !True(NoneFormula(some), o, s)
  {
    hide NoneFormula, SomeOk, True, Witnesses, Picked;
    NoneMeaning(some, o, s);
    ExactlyOnePart(some, o, s);
    if w: State :| Witnesses(some, o, s, w) {
      var best := OptimumExists(some, o, s, bound, w);
    }
  }
}
