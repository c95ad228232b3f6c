/**
 The updates of atomic actions -- assumptions, assertions, assignments and havoc -- and what they mean.
 */
module Atoms {
  import opened Names
  import opened Logic
  import opened ClauseOps
  import opened Updates
  import opened Hiding
  import opened Substitution
  import opened Actions

  // ----- assume -----

  /** The variables bound by the leading existential quantifiers. */
  function Leading(f: Expr): set<string>
  {
    if f.Quant? && !f.all then {f.x} + Leading(f.body) else {}
  }

  function Matrix(f: Expr): Expr
  {
    if f.Quant? && !f.all then Matrix(f.body) else f
  }

  function SkolemSub(xs: set<string>): Subst
  {
    map x | x in xs :: App(Sym(Skolem, Id("__sk__" + x, 0)), [])
  }

  function SkolemizeFormula(f: Expr): Expr
  {
    SubstExpr(Matrix(f), SkolemSub(Leading(f)))
  }

  function AssumeUpdate(f: Expr): Update
  {
    Update([], Fact(SkolemizeFormula(f)), BOT)
  }

  // ----- assert -----

  function DualSub(p: string, xs: set<string>): Subst
  {
    map x | x in xs :: App(Sym(Rigid, Id(p + x, 0)), [])
  }

  /** The negation, with the free variables as constants whose names have the given prefix. */
  function DualWith(p: string, f: Expr): Expr
  {
    Not(SubstExpr(f, DualSub(p, FreeVars(f))))
  }

  function DualFormula(f: Expr): Expr
  {
    DualWith("__", f)
  }

  function AssertUpdate(f: Expr): Update
  {
    Update([], TOP, Fact(DualFormula(f)))
  }

  // ----- assignment and havoc -----

  /** Each index variable stands for the placeholder of its position. */
  function IndexSub(p: string, args: seq<Expr>): Subst
  {
    if args == [] then map[] else
    var n := |args| - 1;
    var sub := IndexSub(p, args[..n]);
    if args[n].Var? then sub[args[n].name := Var(p + Decimal(n))] else sub
  }

  function IndexEq(p: string, args: seq<Expr>, k: nat): Expr
    requires k < |args|
  {
    Op(Equals, Var(p + Decimal(k)), args[k])
  }

  /** The placeholders equal the index expressions. */
  function IndexConds(p: string, args: seq<Expr>): Expr
  {
    if args == [] then Lit(1) else
    var n := |args| - 1;
    var c := IndexConds(p, args[..n]);
    if args[n].Var? then c else Op(Conj, c, IndexEq(p, args, n))
  }

  predicate HasIndex(args: seq<Expr>)
  {
    exists k :: 0 <= k < |args| && !args[k].Var?
  }

  function AssignExpr(target: Target, rhs: Expr): Expr
  {
    var n := |target.args|;
    var drhs := SubstExpr(rhs, IndexSub("V", target.args));
    Op(Equals, App(NewSym(target.x), Holes("V", n)),
       if HasIndex(target.args)
       then Ite(IndexConds("V", target.args), drhs, App(BaseSym(target.x), Holes("V", n)))
       else drhs)
  }

  function AssignUpdate(target: Target, rhs: Expr): Update
  {
    Update([target.x], Fact(AssignExpr(target, rhs)), BOT)
  }

  /** At every index expression: the value is unchanged, or the placeholder equals the expression. */
  function HavocConds(x: Id, args: seq<Expr>, m: nat): Expr
    requires m <= |args|
  {
    if m == 0 then Lit(1) else
    var c := HavocConds(x, args, m - 1);
    if args[m - 1].Var? then c
    else
      var vs := Holes("X", |args|);
      Op(Conj, c, Op(Disj, Op(Equals, App(NewSym(x), vs), App(BaseSym(x), vs)), IndexEq("X", args, m - 1)))
  }

  function HavocUpdate(target: Target): Update
  {
    Update([target.x], Fact(HavocConds(target.x, target.args, |target.args|)), BOT)
  }

  // ----- placeholders -----

  /** The distinct variables p0, p1, ... standing for the arguments of a symbol. */
  function Holes(p: string, n: nat): seq<Expr>
  {
    seq(n, k requires 0 <= k < n => Var(p + Decimal(k)))
  }

  function HoleNames(p: string, n: nat): set<string>
  {
    set k | 0 <= k < n :: p + Decimal(k)
  }

  // ----- what compilation relies on -----

  predicate PlainTarget(target: Target)
  {
    forall e :: e in target.args ==> StateExpr(e) && (e.Var? || Closed(e))
  }

  function IndexVars(args: seq<Expr>): set<string>
  {
    set e | e in args && e.Var? :: e.name
  }
  /** Atomic actions whose expressions meet what compilation relies on: a formula with leading existentials is
      closed, an index expression is a variable or closed, and the right-hand side uses index variables only and
      captures no placeholder. */
  predicate CoreAtom(a: Action)
  {
    match a
    case Assume(f) => StateExpr(f) && (Leading(f) != {} ==> Closed(f))
    case Assert(f) => StateExpr(f)
    case Assign(target, rhs) =>
      && PlainTarget(target) && StateExpr(rhs)
      && FreeVars(rhs) <= IndexVars(target.args)
      && NoCapture(rhs, IndexSub("V", target.args))
    case Havoc(target) => PlainTarget(target)
    case _ => false
  }

  // ----- the meaning of placeholders -----

  lemma HoleInjective(p: string, j: nat, k: nat)
    requires p + Decimal(j) == p + Decimal(k)
    ensures j == k
  {
    assert (p + Decimal(j))[|p|..] == Decimal(j);
    assert (p + Decimal(k))[|p|..] == Decimal(k);
    DecimalInjective(j, k);
  }

  lemma HolesApart(p: string, n: nat)
    ensures forall k: nat :: k < n ==> p + Decimal(k) != p + Decimal(n)
  {
    forall k: nat | k < n
      ensures p + Decimal(k) != p + Decimal(n)
    {
      if p + Decimal(k) == p + Decimal(n) { HoleInjective(p, k, n); }
    }
  }

  /** The environment gives the placeholders the values a. */
  ghost predicate Holding(p: string, a: seq<int>, env: Env)
  {
    forall k: nat :: k < |a| ==> ValueOf(env, p + Decimal(k)) == a[k]
  }

  ghost function HoleEnv(p: string, a: seq<int>): (env: Env)
    ensures Holding(p, a, env)
  {
    if a == [] then map[] else
    var n := |a| - 1;
    var env := HoleEnv(p, a[..n]);
    HolesApart(p, n);
    assert forall k: nat :: k < n ==> ValueOf(env, p + Decimal(k)) == a[..n][k];
    env[p + Decimal(n) := a[n]]
  }

  lemma HolesValue(p: string, a: seq<int>, v: Val, env: Env)
    requires Holding(p, a, env)
    ensures EvalAll(Holes(p, |a|), v, env) == a
  {
    var es := Holes(p, |a|);
    forall k: nat | k < |a|
      ensures EvalAll(es, v, env)[k] == a[k]
    {
      EvalAllAt(es, v, env, k);
    }
  }

  /** Whatever the environment, the placeholders have some values. */
  ghost function HeldBy(p: string, n: nat, env: Env): (a: seq<int>)
    ensures |a| == n && Holding(p, a, env)
  {
    seq(n, k requires 0 <= k < n => ValueOf(env, p + Decimal(k)))
  }

  lemma {:induction false} NoSymsInHoles(es: seq<Expr>)
    requires forall k :: 0 <= k < |es| ==> es[k].Var?
    ensures SymsAll(es) == {}
  {
    if es != [] {
      NoSymsInHoles(es[..|es| - 1]);
    }
  }

  lemma {:induction false} IndexCondsMeaning(p: string, args: seq<Expr>, v: Val, env: Env, a: seq<int>)
    requires |a| == |args| && Holding(p, a, env)
    requires forall e :: e in args ==> e.Var? || Closed(e)
    ensures Eval(IndexConds(p, args), v, env) != 0 <==> Addressed(args, v, a)
  {
    if args != [] {
      var n := |args| - 1;
      IndexCondsMeaning(p, args[..n], v, env, a[..n]);
      assert Addressed(args, v, a) <==>
             Addressed(args[..n], v, a[..n]) && (!args[n].Var? ==> a[n] == Eval(args[n], v, map[]));
      if !args[n].Var? { IndexEqMeaning(p, args, n, v, env, a); }
    }
  }

  lemma IndexEqMeaning(p: string, args: seq<Expr>, k: nat, v: Val, env: Env, a: seq<int>)
    requires k < |args| == |a| && Holding(p, a, env) && Closed(args[k])
    ensures Eval(IndexEq(p, args, k), v, env) == Truth(a[k] == Eval(args[k], v, map[]))
  {
    ClosedEval(args[k], v, env);
    assert Eval(Var(p + Decimal(k)), v, env) == a[k];
  }

  lemma {:induction false} IndexSubMeaning(p: string, args: seq<Expr>, v: Val, env: Env, a: seq<int>, x: string)
    requires |a| == |args| && Holding(p, a, env) && x in IndexVars(args)
    ensures x in IndexSub(p, args) && Eval(IndexSub(p, args)[x], v, env) == ValueOf(IndexEnv(args, a), x)
  {
    var n := |args| - 1;
    if !args[n].Var? || args[n].name != x {
      var e :| e in args && e.Var? && e.name == x;
      assert e in args[..n];
      IndexSubMeaning(p, args[..n], v, env, a[..n], x);
    }
  }

  lemma {:induction false} IndexSubSyms(p: string, args: seq<Expr>)
    ensures SubSyms(IndexSub(p, args)) == {}
  {
    if args != [] {
      var n := |args| - 1;
      IndexSubSyms(p, args[..n]);
    }
  }

  // ----- atomic actions -----

  ghost predicate Correct(a: Action, u: Update)
  {
    && WellFormed(u)
    && (forall o: State, s: State, t: State :: Rel(u, o, s, t) <==> Exec(a, o, s, t))
    && (forall o: State, s: State :: Fails(u, o, s) <==> Aborts(a, o, s))
  }

  lemma BotFails(u: Update, o: State, s: State)
    requires u.pre == BOT
    ensures !Fails(u, o, s)
  {
  }

  /** State expressions do not see the state after. */
  lemma StateEval(e: Expr, o: State, s: State, t: State, w: Val, env: Env)
    requires StateExpr(e) && SameProgram(Mk(o, s, t), w)
    ensures Eval(e, w, env) == Eval(e, Now(o, s), env)
  {
    forall x | x in Syms(e)
      ensures w(x) == Now(o, s)(x)
    {
      assert w(x) == Mk(o, s, t)(x);
    }
    EvalCoincide(e, w, Now(o, s), env);
  }

  /** Values for the leading variables that make the matrix true. */
  ghost predicate Chosen(f: Expr, v: Val, env: Env, env': Env)
  {
    SameEnv(env, env', FreeVars(f)) && Eval(Matrix(f), v, env') != 0
  }

  /** A formula is true when its leading existential variables can be chosen. */
  lemma {:induction false} MatrixMeaning(f: Expr, v: Val, env: Env)
    ensures Eval(f, v, env) != 0 <==> exists env': Env :: Chosen(f, v, env, env')
  {
    if f.Quant? && !f.all {
      assert Matrix(f) == Matrix(f.body);
      forall env': Env | Chosen(f, v, env, env')
        ensures Eval(f, v, env) != 0
      {
        var n := ValueOf(env', f.x);
        assert Chosen(f.body, v, Bind(env, f.x, n), env');
        MatrixMeaning(f.body, v, Bind(env, f.x, n));
        assert Eval(f.body, v, Bind(env, f.x, n)) != 0;
      }
      if Eval(f, v, env) != 0 {
        var n :| Eval(f.body, v, Bind(env, f.x, n)) != 0;
        MatrixMeaning(f.body, v, Bind(env, f.x, n));
        var env': Env :| Chosen(f.body, v, Bind(env, f.x, n), env');
        assert Chosen(f, v, env, env');
      }
    } else {
      if Eval(f, v, env) != 0 { assert Chosen(f, v, env, env); }
      forall env': Env | Chosen(f, v, env, env')
        ensures Eval(f, v, env) != 0
      {
        EvalSameEnv(f, v, env, env');
      }
    }
  }

  ghost predicate Satisfiable(e: Expr, v: Val)
  {
    exists env: Env :: Eval(e, v, env) != 0
  }

  lemma ClosedMatrix(f: Expr, v: Val, env: Env)
    requires Closed(f)
    ensures Eval(f, v, env) != 0 <==> Satisfiable(Matrix(f), v)
  {
    MatrixMeaning(f, v, env);
    forall env': Env | Eval(Matrix(f), v, env') != 0
      ensures Eval(f, v, env) != 0
    {
      assert Chosen(f, v, env, env');
    }
    if env': Env :| Chosen(f, v, env, env') {
      assert Eval(Matrix(f), v, env') != 0;
    }
  }

  lemma {:induction false} MatrixFacts(f: Expr)
    ensures FreeVars(Matrix(f)) <= FreeVars(f) + Leading(f) && Syms(Matrix(f)) == Syms(f)
  {
    if f.Quant? && !f.all { MatrixFacts(f.body); }
  }

  lemma SkolemizeEval(f: Expr, w: Val, env: Env)
    ensures Eval(SkolemizeFormula(f), w, env) == Eval(Matrix(f), w, SubstEnv(SkolemSub(Leading(f)), w, env))
  {
    var sub := SkolemSub(Leading(f));
    forall x | x in sub
      ensures FreeVars(sub[x]) == {}
    {
    }
    NoCaptureClosed(Matrix(f), sub);
    SubstMeaning(Matrix(f), sub, w, env);
  }

  /** The values that a valuation gives to the skolem constants of a formula, and the other way round. */
  ghost function SkolemVal(v: Val, xs: set<string>, env: Env): Val
  {
    (y: Sym) => if Skolemed(y, xs) then ConstTable(ValueOf(env, Bare(y))) else v(y)
  }

  predicate Skolemed(y: Sym, xs: set<string>)
  {
    y.kind.Skolem? && exists x :: x in xs && y.id == Id("__sk__" + x, 0)
  }

  function Bare(y: Sym): string
  {
    if |y.id.name| >= 6 then y.id.name[6..] else ""
  }

  ghost function ConstTable(n: int): Table { a => n }

  lemma AssumeHolds(f: Expr, o: State, s: State, t: State)
    requires CoreAtom(Assume(f))
    ensures Ex(Fact(SkolemizeFormula(f)), Mk(o, s, t)) <==> True(f, o, s)
  {
    hide Eval;
    MatrixFacts(f);
    forall w: Val, env: Env
      ensures Eval(SkolemizeFormula(f), w, env) == Eval(Matrix(f), w, SubstEnv(SkolemSub(Leading(f)), w, env))
    {
      SkolemizeEval(f, w, env);
    }
    if Leading(f) == {} {
      AssumePlain(f, o, s, t);
    } else {
      AssumeClosed(f, o, s, t);
    }
  }

  lemma AssumePlain(f: Expr, o: State, s: State, t: State)
    requires CoreAtom(Assume(f)) && Leading(f) == {}
    requires forall w: Val, env: Env ::
               Eval(SkolemizeFormula(f), w, env) == Eval(Matrix(f), w, SubstEnv(SkolemSub(Leading(f)), w, env))
    ensures Ex(Fact(SkolemizeFormula(f)), Mk(o, s, t)) <==> True(f, o, s)
  {
    hide Eval;
    var g := SkolemizeFormula(f);
    assert Matrix(f) == f;
    forall w: Val | SameProgram(Mk(o, s, t), w)
      ensures Valid(g, w) <==> True(f, o, s)
    {
      forall env: Env
        ensures Eval(g, w, env) == Eval(f, Now(o, s), env)
      {
        EvalSameEnv(f, w, SubstEnv(SkolemSub({}), w, env), env);
        StateEval(f, o, s, t, w, env);
      }
    }
    assert SameProgram(Mk(o, s, t), Mk(o, s, t));
  }

  ghost predicate SkolemRead(f: Expr)
  {
    forall w: Val, env: Env ::
      Eval(SkolemizeFormula(f), w, env) == Eval(Matrix(f), w, SubstEnv(SkolemSub(Leading(f)), w, env))
  }

  lemma AssumeClosed(f: Expr, o: State, s: State, t: State)
    requires CoreAtom(Assume(f)) && Closed(f) && SkolemRead(f)
    ensures Ex(Fact(SkolemizeFormula(f)), Mk(o, s, t)) <==> True(f, o, s)
  {
    hide Eval, SkolemizeFormula, Valid, CoreAtom, Closed;
    if w: Val :| SameProgram(Mk(o, s, t), w) && Valid(SkolemizeFormula(f), w) {
      AssumeClosedHolds(f, o, s, t, w);
    }
    if True(f, o, s) { AssumeClosedTrue(f, o, s, t); }
  }

  lemma AssumeClosedHolds(f: Expr, o: State, s: State, t: State, w: Val)
    requires CoreAtom(Assume(f)) && Closed(f) && SkolemRead(f)
    requires SameProgram(Mk(o, s, t), w) && Valid(SkolemizeFormula(f), w)
    ensures True(f, o, s)
  {
    hide Eval, SkolemizeFormula, Closed;
    MatrixFacts(f);
    var env' := SubstEnv(SkolemSub(Leading(f)), w, map[]);
    assert Eval(SkolemizeFormula(f), w, map[]) != 0;
    StateEval(Matrix(f), o, s, t, w, env');
    assert Satisfiable(Matrix(f), Now(o, s));
    forall env: Env
      ensures Eval(f, Now(o, s), env) != 0
    {
      ClosedMatrix(f, Now(o, s), env);
    }
  }

  lemma AssumeClosedTrue(f: Expr, o: State, s: State, t: State)
    requires CoreAtom(Assume(f)) && Closed(f) && SkolemRead(f) && True(f, o, s)
    ensures Ex(Fact(SkolemizeFormula(f)), Mk(o, s, t))
  {
    hide Eval, SkolemizeFormula;
    var sub := SkolemSub(Leading(f));
    MatrixFacts(f);
    assert Eval(f, Now(o, s), map[]) != 0;
    ClosedMatrix(f, Now(o, s), map[]);
    var env': Env :| Eval(Matrix(f), Now(o, s), env') != 0;
    var w := SkolemVal(Mk(o, s, t), Leading(f), env');
    SkolemValEnv(f, Mk(o, s, t), env');
    forall env: Env
      ensures Eval(SkolemizeFormula(f), w, env) != 0
    {
      EvalSameEnv(Matrix(f), w, SubstEnv(sub, w, env), env');
      StateEval(Matrix(f), o, s, t, w, env');
    }
    assert SameProgram(Mk(o, s, t), w) && Holds(Fact(SkolemizeFormula(f)), w);
  }

  lemma SkolemValEnv(f: Expr, v: Val, env': Env)
    ensures var w := SkolemVal(v, Leading(f), env');
            forall env: Env, x :: x in Leading(f) ==>
              ValueOf(SubstEnv(SkolemSub(Leading(f)), w, env), x) == ValueOf(env', x)
  {
    var w := SkolemVal(v, Leading(f), env');
    var sub := SkolemSub(Leading(f));
    forall env: Env, x | x in Leading(f)
      ensures ValueOf(SubstEnv(sub, w, env), x) == ValueOf(env', x)
    {
      var y := Sym(Skolem, Id("__sk__" + x, 0));
      assert Bare(y) == x && Skolemed(y, Leading(f));
      assert sub[x] == App(y, []);
      ConstValue(y, w, env);
    }
  }

  lemma ConstValue(y: Sym, w: Val, env: Env)
    ensures Eval(App(y, []), w, env) == w(y)([])
    ensures Syms(App(y, [])) == {y} && FreeVars(App(y, [])) == {}
  {
  }

  lemma AssumeCorrect(f: Expr)
    requires CoreAtom(Assume(f))
    ensures Correct(Assume(f), AssumeUpdate(f))
  {
    hide Ex, True, SkolemizeFormula, CoreAtom;
    var u := AssumeUpdate(f);
    forall o: State, s: State, t: State
      ensures Rel(u, o, s, t) <==> Exec(Assume(f), o, s, t)
    {
      AssumeHolds(f, o, s, t);
    }
    forall o: State, s: State
      ensures !Fails(u, o, s)
    {
      BotFails(u, o, s);
    }
    AssumeUsed(f);
  }

  lemma AssumeUsed(f: Expr)
    requires CoreAtom(Assume(f))
    ensures forall y :: y in Syms(SkolemizeFormula(f)) ==> y.kind.Base? || y.kind.Old? || y.kind.Skolem?
  {
    SubstSyms(Matrix(f), SkolemSub(Leading(f)));
    MatrixFacts(f);
    forall x | x in Leading(f)
      ensures Syms(SkolemSub(Leading(f))[x]) == {Sym(Skolem, Id("__sk__" + x, 0))}
    {
    }
  }

  lemma DualEval(p: string, f: Expr, w: Val, env: Env)
    ensures Eval(DualWith(p, f), w, env) == Truth(Eval(f, w, SubstEnv(DualSub(p, FreeVars(f)), w, env)) == 0)
  {
    var sub := DualSub(p, FreeVars(f));
    forall x | x in sub
      ensures FreeVars(sub[x]) == {}
    {
    }
    NoCaptureClosed(f, sub);
    SubstMeaning(f, sub, w, env);
  }

  ghost function DualVal(p: string, v: Val, xs: set<string>, env: Env): Val
  {
    (y: Sym) => if Dualled(p, y, xs) then ConstTable(ValueOf(env, Unprefixed(p, y))) else v(y)
  }

  predicate Dualled(p: string, y: Sym, xs: set<string>)
  {
    y.kind.Rigid? && exists x :: x in xs && y.id == Id(p + x, 0)
  }

  function Unprefixed(p: string, y: Sym): string
  {
    if |y.id.name| >= |p| then y.id.name[|p|..] else ""
  }

  lemma DualValEnv(p: string, xs: set<string>, v: Val, env: Env, env': Env)
    ensures SameEnv(SubstEnv(DualSub(p, xs), DualVal(p, v, xs, env'), env), env', xs)
  {
    var w := DualVal(p, v, xs, env');
    forall x | x in xs
      ensures ValueOf(SubstEnv(DualSub(p, xs), w, env), x) == ValueOf(env', x)
    {
      var y := Sym(Rigid, Id(p + x, 0));
      assert Unprefixed(p, y) == x && Dualled(p, y, xs);
      assert DualSub(p, xs)[x] == App(y, []);
      ConstValue(y, w, env);
    }
  }

  /** The dual of a formula is satisfiable exactly where the formula is not valid. */
  lemma DualHolds(p: string, f: Expr, o: State, s: State, n: State)
    requires StateExpr(f)
    ensures Ex(Fact(DualWith(p, f)), Mk(o, s, n)) <==> !True(f, o, s)
  {
    hide Eval;
    var g := DualWith(p, f);
    var sub := DualSub(p, FreeVars(f));
    forall w: Val | SameProgram(Mk(o, s, n), w) && Valid(g, w)
      ensures !True(f, o, s)
    {
      assert Eval(g, w, map[]) != 0;
      DualEval(p, f, w, map[]);
      StateEval(f, o, s, n, w, SubstEnv(sub, w, map[]));
    }
    forall env': Env | Eval(f, Now(o, s), env') == 0
      ensures Ex(Fact(g), Mk(o, s, n))
    {
      var w := DualVal(p, Mk(o, s, n), FreeVars(f), env');
      forall env: Env
        ensures Eval(g, w, env) != 0
      {
        DualEval(p, f, w, env);
        DualValEnv(p, FreeVars(f), Mk(o, s, n), env, env');
        EvalSameEnv(f, w, SubstEnv(sub, w, env), env');
        StateEval(f, o, s, n, w, env');
      }
      assert SameProgram(Mk(o, s, n), w) && Holds(Fact(g), w);
    }
  }

  lemma AssertCorrect(f: Expr)
    requires CoreAtom(Assert(f))
    ensures Correct(Assert(f), AssertUpdate(f))
  {
    hide True;
    var u := AssertUpdate(f);
    forall o: State, s: State, t: State
      ensures Rel(u, o, s, t) <==> Exec(Assert(f), o, s, t)
    {
      assert SameProgram(Mk(o, s, t), Mk(o, s, t));
    }
    forall o: State, s: State
      ensures Fails(u, o, s) <==> Aborts(Assert(f), o, s)
    {
      forall n: State
        ensures Ex(u.pre, Mk(o, s, n)) <==> !True(f, o, s)
      {
        DualHolds("__", f, o, s, n);
      }
      if !True(f, o, s) { assert Ex(u.pre, Mk(o, s, s)); }
    }
    AssertUsed(f);
  }

  lemma AssertUsed(f: Expr)
    requires StateExpr(f)
    ensures NewOnly(Fact(DualFormula(f)), [])
  {
    DualUsed("__", f);
  }

  lemma DualUsed(p: string, f: Expr)
    ensures forall y :: y in Syms(DualWith(p, f)) ==> y in Syms(f) || y.kind.Rigid?
  {
    SubstSyms(f, DualSub(p, FreeVars(f)));
    forall x | x in FreeVars(f)
      ensures Syms(DualSub(p, FreeVars(f))[x]) == {Sym(Rigid, Id(p + x, 0))}
    {
    }
  }

  // ----- assignment -----

  lemma HolesApp(f: Sym, p: string, a: seq<int>, w: Val, env: Env)
    requires Holding(p, a, env)
    ensures Eval(App(f, Holes(p, |a|)), w, env) == w(f)(a)
  {
    HolesValue(p, a, w, env);
  }

  lemma IteEval(c: Expr, t: Expr, e: Expr, w: Val, env: Env)
    ensures Eval(Ite(c, t, e), w, env) == if Eval(c, w, env) != 0 then Eval(t, w, env) else Eval(e, w, env)
  {
  }

  lemma EqualsEval(l: Expr, r: Expr, w: Val, env: Env)
    ensures Eval(Op(Equals, l, r), w, env) == Truth(Eval(l, w, env) == Eval(r, w, env))
  {
  }

  /** The right-hand side with placeholders for the index variables. */
  function Placed(target: Target, rhs: Expr): Expr
  {
    SubstExpr(rhs, IndexSub("V", target.args))
  }

  lemma AssignExprEval(target: Target, rhs: Expr, w: Val, env: Env, a: seq<int>)
    requires |a| == |target.args| && Holding("V", a, env)
    ensures Eval(AssignExpr(target, rhs), w, env) ==
            Truth(w(NewSym(target.x))(a) ==
                  if HasIndex(target.args) && Eval(IndexConds("V", target.args), w,
                                                   env) == 0 then w(BaseSym(target.x))(a)
                  else Eval(Placed(target, rhs), w, env))
  {
    hide Eval, SubstExpr, IndexConds, Holes;
    var args := target.args;
    var left, kept := App(NewSym(target.x), Holes("V", |args|)), App(BaseSym(target.x), Holes("V", |args|));
    HolesApp(NewSym(target.x), "V", a, w, env);
    HolesApp(BaseSym(target.x), "V", a, w, env);
    IteEval(IndexConds("V", args), Placed(target, rhs), kept, w, env);
    var placed := Placed(target, rhs);
    EqualsEval(left, if HasIndex(args) then Ite(IndexConds("V", args), placed, kept) else placed, w, env);
  }

  lemma PlacedEval(target: Target, rhs: Expr, w: Val, env: Env, a: seq<int>)
    requires CoreAtom(Assign(target, rhs)) && |a| == |target.args| && Holding("V", a, env)
    ensures Eval(Placed(target, rhs), w, env) == Eval(rhs, w, IndexEnv(target.args, a))
  {
    hide Eval, SubstExpr, NoCapture;
    var args, sub := target.args, IndexSub("V", target.args);
    SubstMeaning(rhs, sub, w, env);
    forall x | x in FreeVars(rhs)
      ensures ValueOf(SubstEnv(sub, w, env), x) == ValueOf(IndexEnv(args, a), x)
    {
      IndexSubMeaning("V", args, w, env, a, x);
    }
    EvalSameEnv(rhs, w, SubstEnv(sub, w, env), IndexEnv(args, a));
  }

  /** What the assignment clause says about one cell. */
  lemma AssignEval(target: Target, rhs: Expr, w: Val, env: Env, a: seq<int>)
    requires CoreAtom(Assign(target, rhs)) && |a| == |target.args| && Holding("V", a, env)
    ensures Eval(AssignExpr(target, rhs), w, env) ==
            Truth(w(NewSym(target.x))(a) == if Addressed(target.args, w, a) then Eval(rhs, w, IndexEnv(target.args, a))
                                            else w(BaseSym(target.x))(a))
  {
    hide Eval, SubstExpr, IndexConds, NoCapture, AssignExpr, IndexSub;
    AssignExprEval(target, rhs, w, env, a);
    PlacedEval(target, rhs, w, env, a);
    IndexCondsMeaning("V", target.args, w, env, a);
  }

  /** The index expressions have the same values before and in the two-state valuation. */
  lemma AddressedNow(target: Target, o: State, s: State, t: State, w: Val, a: seq<int>)
    requires PlainTarget(target) && |a| == |target.args| && SameProgram(Mk(o, s, t), w)
    ensures Addressed(target.args, w, a) <==> Addressed(target.args, Now(o, s), a)
  {
    forall k | 0 <= k < |target.args|
      ensures Eval(target.args[k], w, map[]) == Eval(target.args[k], Now(o, s), map[])
    {
      StateEval(target.args[k], o, s, t, w, map[]);
    }
  }

  lemma AssignHolds(target: Target, rhs: Expr, o: State, s: State, t: State, w: Val)
    requires CoreAtom(Assign(target, rhs)) && SameProgram(Mk(o, s, t), w)
    requires forall i: Id :: i != target.x ==> t(i) == s(i)
    ensures Valid(AssignExpr(target, rhs), w) <==> Assigned(target, rhs, o, s, t)
  {
    hide Eval, AssignExpr;
    var n := |target.args|;
    forall a: seq<int>, env: Env | |a| == n && Holding("V", a, env)
      ensures Eval(AssignExpr(target, rhs), w, env) ==
              Truth(t(target.x)(a) == if Addressed(target.args, Now(o, s), a)
                                      then Eval(rhs, Now(o, s), IndexEnv(target.args, a))
                                      else s(target.x)(a))
    {
      AssignEval(target, rhs, w, env, a);
      AddressedNow(target, o, s, t, w, a);
      StateEval(rhs, o, s, t, w, IndexEnv(target.args, a));
      assert w(NewSym(target.x)) == Mk(o, s, t)(NewSym(target.x));
      assert w(BaseSym(target.x)) == Mk(o, s, t)(BaseSym(target.x));
    }
    if Valid(AssignExpr(target, rhs), w) {
      forall a: seq<int> | |a| == n
        ensures t(target.x)(a) == if Addressed(target.args, Now(o, s), a)
                                  then Eval(rhs, Now(o, s), IndexEnv(target.args, a))
                                  else s(target.x)(a)
      {
        assert Eval(AssignExpr(target, rhs), w, HoleEnv("V", a)) != 0;
      }
    }
    if Assigned(target, rhs, o, s, t) {
      forall env: Env
        ensures Eval(AssignExpr(target, rhs), w, env) != 0
      {
        var a := HeldBy("V", n, env);
      }
    }
  }

  lemma {:induction false} PlainArgs(p: string, args: seq<Expr>)
    requires forall e :: e in args ==> StateExpr(e)
    ensures StateExpr(IndexConds(p, args))
  {
    if args != [] {
      var n := |args| - 1;
      PlainArgs(p, args[..n]);
      var c := IndexConds(p, args[..n]);
      assert StateExpr(c) && StateExpr(args[n]);
      if !args[n].Var? {
        assert Syms(IndexEq(p, args, n)) == Syms(args[n]);
        assert Syms(Op(Conj, c, IndexEq(p, args, n))) == Syms(c) + Syms(args[n]);
      }
    }
  }

  lemma AssignUsed(target: Target, rhs: Expr)
    requires CoreAtom(Assign(target, rhs))
    ensures WellFormed(AssignUpdate(target, rhs))
  {
    RhsState(target, rhs);
    PlainArgs("V", target.args);
    AppUsed(NewSym(target.x), |target.args|);
    AppUsed(BaseSym(target.x), |target.args|);
    hide SubstExpr, IndexConds, IndexSub, Holes, CoreAtom, NoCapture, FreeVars;
    var kept := App(BaseSym(target.x), Holes("V", |target.args|));
    IteState(IndexConds("V", target.args), Placed(target, rhs), kept);
    var value := if HasIndex(target.args) then Ite(IndexConds("V", target.args), Placed(target, rhs), kept)
                 else Placed(target, rhs);
    EqualsUsed(App(NewSym(target.x), Holes("V", |target.args|)), value);
    assert AssignExpr(target, rhs) == Op(Equals, App(NewSym(target.x), Holes("V", |target.args|)), value);
  }

  lemma RhsState(target: Target, rhs: Expr)
    requires CoreAtom(Assign(target, rhs))
    ensures StateExpr(Placed(target, rhs))
  {
    IndexSubSyms("V", target.args);
    SubstSyms(rhs, IndexSub("V", target.args));
  }

  lemma IteState(c: Expr, t: Expr, e: Expr)
    requires StateExpr(c) && StateExpr(t) && StateExpr(e)
    ensures StateExpr(Ite(c, t, e))
  {
  }

  lemma EqualsUsed(l: Expr, r: Expr)
    ensures Syms(Op(Equals, l, r)) == Syms(l) + Syms(r)
  {
  }

  lemma AppUsed(f: Sym, n: nat)
    ensures Syms(App(f, Holes("V", n))) == {f}
  {
    NoSymsInHoles(Holes("V", n));
  }

  ghost predicate Framed(x: Id, s: State, t: State)
  {
    forall i: Id :: i != x ==> t(i) == s(i)
  }

  /** An update of one symbol by a clause whose truth does not depend on the existential symbols. */
  lemma OneFact(x: Id, e: Expr, o: State, s: State, t: State, ok: bool)
    requires ok ==> Framed(x, s, t)
    requires Framed(x, s, t) ==> forall w: Val :: SameProgram(Mk(o, s, t), w) ==> (Valid(e, w) <==> ok)
    ensures Rel(Update([x], Fact(e), BOT), o, s, t) <==> ok
  {
    hide Valid;
    assert SameProgram(Mk(o, s, t), Mk(o, s, t));
    assert Rel(Update([x], Fact(e), BOT), o, s, t) ==> Framed(x, s, t);
  }

  lemma AssignCorrect(target: Target, rhs: Expr)
    requires CoreAtom(Assign(target, rhs))
    ensures Correct(Assign(target, rhs), AssignUpdate(target, rhs))
  {
    hide Valid, AssignExpr, CoreAtom;
    var u := AssignUpdate(target, rhs);
    AssignUsed(target, rhs);
    forall o: State, s: State, t: State
      ensures Rel(u, o, s, t) <==> Assigned(target, rhs, o, s, t)
    {
      if Framed(target.x, s, t) {
        forall w: Val | SameProgram(Mk(o, s, t), w)
          ensures Valid(AssignExpr(target, rhs), w) <==> Assigned(target, rhs, o, s, t)
        {
          AssignHolds(target, rhs, o, s, t, w);
        }
      }
      OneFact(target.x, AssignExpr(target, rhs), o, s, t, Assigned(target, rhs, o, s, t));
    }
    forall o: State, s: State
      ensures !Fails(u, o, s)
    {
      BotFails(u, o, s);
    }
  }

  // ----- havoc -----

  ghost predicate Missed(args: seq<Expr>, m: nat, v: Val, a: seq<int>)
    requires m <= |args| == |a|
  {
    exists k :: 0 <= k < m && !args[k].Var? && a[k] != Eval(args[k], v, map[])
  }

  /** What the havoc clause says about one cell: unchanged unless every index expression is met. */
  lemma {:induction false} HavocEval(x: Id, args: seq<Expr>, m: nat, w: Val, env: Env, a: seq<int>)
    requires m <= |args| == |a| && Holding("X", a, env)
    requires forall e :: e in args ==> e.Var? || Closed(e)
    ensures Eval(HavocConds(x, args, m), w, env) != 0 <==>
            (Missed(args, m, w, a) ==> w(NewSym(x))(a) == w(BaseSym(x))(a))
  {
    if m > 0 {
      HavocEval(x, args, m - 1, w, env, a);
      assert Missed(args, m, w, a) <==>
             Missed(args, m - 1, w, a) || (!args[m - 1].Var? && a[m - 1] != Eval(args[m - 1], w, map[]));
      if !args[m - 1].Var? {
        var vs := Holes("X", |args|);
        HolesValue("X", a, w, env);
        IndexEqMeaning("X", args, m - 1, w, env, a);
        assert Eval(App(NewSym(x), vs), w, env) == w(NewSym(x))(a);
        assert Eval(App(BaseSym(x), vs), w, env) == w(BaseSym(x))(a);
        assert Eval(Op(Equals, App(NewSym(x), vs), App(BaseSym(x), vs)), w, env) ==
               Truth(w(NewSym(x))(a) == w(BaseSym(x))(a));
      }
    }
  }

  lemma HavocHolds(target: Target, o: State, s: State, t: State, w: Val)
    requires PlainTarget(target) && SameProgram(Mk(o, s, t), w) && Framed(target.x, s, t)
    ensures Valid(HavocConds(target.x, target.args, |target.args|), w) <==> Havocked(target, o, s, t)
  {
    hide Eval, HavocConds;
    var n := |target.args|;
    var e := HavocConds(target.x, target.args, n);
    forall a: seq<int>, env: Env | |a| == n && Holding("X", a, env)
      ensures Eval(e, w, env) != 0 <==>
              (!Addressed(target.args, Now(o, s), a) ==> t(target.x)(a) == s(target.x)(a))
    {
      HavocEval(target.x, target.args, n, w, env, a);
      AddressedNow(target, o, s, t, w, a);
      assert Missed(target.args, n, w, a) <==> !Addressed(target.args, w, a);
      assert w(NewSym(target.x)) == Mk(o, s, t)(NewSym(target.x));
      assert w(BaseSym(target.x)) == Mk(o, s, t)(BaseSym(target.x));
    }
    if Valid(e, w) {
      forall a: seq<int> | |a| == n && !Addressed(target.args, Now(o, s), a)
        ensures t(target.x)(a) == s(target.x)(a)
      {
        assert Eval(e, w, HoleEnv("X", a)) != 0;
      }
    }
    if Havocked(target, o, s, t) {
      forall env: Env
        ensures Eval(e, w, env) != 0
      {
        var a := HeldBy("X", n, env);
      }
    }
  }

  lemma {:induction false} HavocUsed(x: Id, args: seq<Expr>, m: nat)
    requires m <= |args| && forall e :: e in args ==> StateExpr(e)
    ensures forall y :: y in Syms(HavocConds(x, args, m)) ==> y == NewSym(x) || y.kind.Base? || y.kind.Old?
  {
    if m > 0 {
      HavocUsed(x, args, m - 1);
      assert StateExpr(args[m - 1]);
      var vs := Holes("X", |args|);
      NoSymsInHoles(vs);
      assert Syms(App(NewSym(x), vs)) == {NewSym(x)};
      assert Syms(App(BaseSym(x), vs)) == {BaseSym(x)};
      var eq := Op(Equals, App(NewSym(x), vs), App(BaseSym(x), vs));
      assert Syms(IndexEq("X", args, m - 1)) == Syms(args[m - 1]);
      assert Syms(eq) == {NewSym(x)} + {BaseSym(x)};
      var step := Op(Disj, eq, IndexEq("X", args, m - 1));
      assert Syms(step) == Syms(eq) + Syms(args[m - 1]);
      assert Syms(Op(Conj, HavocConds(x, args, m - 1), step)) == Syms(HavocConds(x, args, m - 1)) + Syms(step);
    }
  }

  lemma HavocCorrect(target: Target)
    requires CoreAtom(Havoc(target))
    ensures Correct(Havoc(target), HavocUpdate(target))
  {
    hide Valid, HavocConds;
    var u := HavocUpdate(target);
    var e := HavocConds(target.x, target.args, |target.args|);
    HavocUsed(target.x, target.args, |target.args|);
    forall o: State, s: State, t: State
      ensures Rel(u, o, s, t) <==> Havocked(target, o, s, t)
    {
      if Framed(target.x, s, t) {
        forall w: Val | SameProgram(Mk(o, s, t), w)
          ensures Valid(e, w) <==> Havocked(target, o, s, t)
        {
          HavocHolds(target, o, s, t, w);
        }
      }
      OneFact(target.x, e, o, s, t, Havocked(target, o, s, t));
    }
    forall o: State, s: State
      ensures !Fails(u, o, s)
    {
      BotFails(u, o, s);
    }
  }
}
