/**
 Free variables of expressions and substitution of terms for variables by name.
 */
module Substitution {
  import opened Names
  import opened Logic

  /** Symbols of the present state and old_ symbols only. */
  predicate StateExpr(e: Expr)
  {
    forall x :: x in Syms(e) ==> x.kind.Base? || x.kind.Old?
  }

  function FreeVars(e: Expr): set<string>
    decreases e, 1
  {
    match e
    case Var(x) => {x}
    case Lit(_) => {}
    case App(_, args) => FreeVarsAll(args)
    case Not(a) => FreeVars(a)
    case Op(_, l, r) => FreeVars(l) + FreeVars(r)
    case Ite(c, t, f) => FreeVars(c) + FreeVars(t) + FreeVars(f)
    case Quant(_, x, b) => FreeVars(b) - {x}
  }

  function FreeVarsAll(es: seq<Expr>): set<string>
    decreases es, 0
  {
    if es == [] then {} else FreeVarsAll(es[..|es| - 1]) + FreeVars(es[|es| - 1])
  }

  predicate Closed(e: Expr) { FreeVars(e) == {} }

  function ValueOf(env: Env, x: string): int
  {
    if x in env then env[x] else 0
  }

  ghost predicate SameEnv(env: Env, env': Env, xs: set<string>)
  {
    forall x :: x in xs ==> ValueOf(env, x) == ValueOf(env', x)
  }

  lemma {:induction false} EvalSameEnv(e: Expr, v: Val, env: Env, env': Env)
    requires SameEnv(env, env', FreeVars(e))
    ensures Eval(e, v, env) == Eval(e, v, env')
    decreases e, 1
  {
    match e
    case Var(_) =>
    case Lit(_) =>
    case App(_, args) => EvalAllSameEnv(args, v, env, env');
    case Not(a) => EvalSameEnv(a, v, env, env');
    case Op(_, l, r) => EvalSameEnv(l, v, env, env'); EvalSameEnv(r, v, env, env');
    case Ite(c, t, f) =>
      EvalSameEnv(c, v, env, env'); EvalSameEnv(t, v, env, env'); EvalSameEnv(f, v, env, env');
    case Quant(_, x, b) =>
      forall n: int
        ensures Eval(b, v, Bind(env, x, n)) == Eval(b, v, Bind(env', x, n))
      {
        assert forall y :: y in FreeVars(b) && y != x ==> y in FreeVars(e);
        EvalSameEnv(b, v, Bind(env, x, n), Bind(env', x, n));
      }
  }

  lemma {:induction false} EvalAllSameEnv(es: seq<Expr>, v: Val, env: Env, env': Env)
    requires SameEnv(env, env', FreeVarsAll(es))
    ensures EvalAll(es, v, env) == EvalAll(es, v, env')
    decreases es, 0
  {
    if es != [] {
      EvalAllSameEnv(es[..|es| - 1], v, env, env');
      EvalSameEnv(es[|es| - 1], v, env, env');
    }
  }

  lemma ClosedEval(e: Expr, v: Val, env: Env)
    requires Closed(e)
    ensures Eval(e, v, env) == Eval(e, v, map[])
  {
    EvalSameEnv(e, v, env, map[]);
  }

  // ----- substitution -----

  type Subst = map<string, Expr>

  /** Replaces free variables by name; a quantifier shields the variable it binds. */
  function SubstExpr(e: Expr, sub: Subst): Expr
    decreases e, 1
  {
    match e
    case Var(x) => if x in sub then sub[x] else e
    case Lit(_) => e
    case App(f, args) => App(f, SubstExprs(args, sub))
    case Not(a) => Not(SubstExpr(a, sub))
    case Op(op, l, r) => Op(op, SubstExpr(l, sub), SubstExpr(r, sub))
    case Ite(c, t, f) => Ite(SubstExpr(c, sub), SubstExpr(t, sub), SubstExpr(f, sub))
    case Quant(all, x, b) => Quant(all, x, SubstExpr(b, sub - {x}))
  }

  function SubstExprs(es: seq<Expr>, sub: Subst): (r: seq<Expr>)
    ensures |r| == |es|
    decreases es, 0
  {
    if es == [] then [] else SubstExprs(es[..|es| - 1], sub) + [SubstExpr(es[|es| - 1], sub)]
  }

  /** No quantifier of e binds one of the names. */
  predicate BindsNone(e: Expr, names: set<string>)
    decreases e, 1
  {
    match e
    case Var(_) => true
    case Lit(_) => true
    case App(_, args) => BindNone(args, names)
    case Not(a) => BindsNone(a, names)
    case Op(_, l, r) => BindsNone(l, names) && BindsNone(r, names)
    case Ite(c, t, f) => BindsNone(c, names) && BindsNone(t, names) && BindsNone(f, names)
    case Quant(_, x, b) => x !in names && BindsNone(b, names)
  }

  predicate BindNone(es: seq<Expr>, names: set<string>)
    decreases es, 0
  {
    es == [] || (BindNone(es[..|es| - 1], names) && BindsNone(es[|es| - 1], names))
  }

  /** No quantifier binds a variable of a term that is put in below it. */
  predicate NoCapture(e: Expr, sub: Subst)
    decreases e, 1
  {
    match e
    case Var(_) => true
    case Lit(_) => true
    case App(_, args) => NoCaptures(args, sub)
    case Not(a) => NoCapture(a, sub)
    case Op(_, l, r) => NoCapture(l, sub) && NoCapture(r, sub)
    case Ite(c, t, f) => NoCapture(c, sub) && NoCapture(t, sub) && NoCapture(f, sub)
    case Quant(_, x, b) =>
      && (forall y :: y in sub && y != x && y in FreeVars(b) ==> x !in FreeVars(sub[y]))
      && NoCapture(b, sub - {x})
  }

  predicate NoCaptures(es: seq<Expr>, sub: Subst)
    decreases es, 0
  {
    es == [] || (NoCaptures(es[..|es| - 1], sub) && NoCapture(es[|es| - 1], sub))
  }

  /** The environment in which the substituted variables have the values of their terms. */
  ghost function SubstEnv(sub: Subst, v: Val, env: Env): (r: Env)
    ensures forall x :: ValueOf(r, x) == if x in sub then Eval(sub[x], v, env) else ValueOf(env, x)
  {
    map x | x in sub.Keys + env.Keys :: if x in sub then Eval(sub[x], v, env) else env[x]
  }

  lemma {:induction false} SubstMeaning(e: Expr, sub: Subst, v: Val, env: Env)
    requires NoCapture(e, sub)
    ensures Eval(SubstExpr(e, sub), v, env) == Eval(e, v, SubstEnv(sub, v, env))
    decreases e, 1
  {
    match e
    case Var(_) =>
    case Lit(_) =>
    case App(_, args) => SubstAllMeaning(args, sub, v, env);
    case Not(a) => SubstMeaning(a, sub, v, env);
    case Op(_, l, r) => SubstMeaning(l, sub, v, env); SubstMeaning(r, sub, v, env);
    case Ite(c, t, f) => SubstMeaning(c, sub, v, env); SubstMeaning(t, sub, v, env); SubstMeaning(f, sub, v, env);
    case Quant(_, x, b) =>
      forall n: int
        ensures Eval(SubstExpr(b, sub - {x}), v, Bind(env, x, n)) == Eval(b, v, Bind(SubstEnv(sub, v, env), x, n))
      {
        SubstUnder(e, sub, v, env, n);
      }
  }

  lemma {:induction false} SubstUnder(e: Expr, sub: Subst, v: Val, env: Env, n: int)
    requires e.Quant? && NoCapture(e, sub)
    ensures Eval(SubstExpr(e.body, sub - {e.x}), v, Bind(env, e.x, n)) ==
            Eval(e.body, v, Bind(SubstEnv(sub, v, env), e.x, n))
    decreases e, 0
  {
    var inner := Bind(env, e.x, n);
    SubstMeaning(e.body, sub - {e.x}, v, inner);
    forall y | y in sub && y != e.x && y in FreeVars(e.body)
      ensures Eval(sub[y], v, inner) == Eval(sub[y], v, env)
    {
      EvalSameEnv(sub[y], v, inner, env);
    }
    EvalSameEnv(e.body, v, SubstEnv(sub - {e.x}, v, inner), Bind(SubstEnv(sub, v, env), e.x, n));
  }

  lemma {:induction false} SubstAllMeaning(es: seq<Expr>, sub: Subst, v: Val, env: Env)
    requires NoCaptures(es, sub)
    ensures EvalAll(SubstExprs(es, sub), v, env) == EvalAll(es, v, SubstEnv(sub, v, env))
    decreases es, 0
  {
    if es != [] {
      SubstAllMeaning(es[..|es| - 1], sub, v, env);
      SubstMeaning(es[|es| - 1], sub, v, env);
      var r := SubstExprs(es, sub);
      assert r[..|r| - 1] == SubstExprs(es[..|es| - 1], sub);
    }
  }

  /** Closed terms are never captured. */
  lemma {:induction false} NoCaptureClosed(e: Expr, sub: Subst)
    requires forall x :: x in sub ==> Closed(sub[x])
    ensures NoCapture(e, sub)
    decreases e, 1
  {
    match e
    case Var(_) =>
    case Lit(_) =>
    case App(_, args) => NoCapturesClosed(args, sub);
    case Not(a) => NoCaptureClosed(a, sub);
    case Op(_, l, r) => NoCaptureClosed(l, sub); NoCaptureClosed(r, sub);
    case Ite(c, t, f) => NoCaptureClosed(c, sub); NoCaptureClosed(t, sub); NoCaptureClosed(f, sub);
    case Quant(_, x, b) => NoCaptureClosed(b, sub - {x});
  }

  lemma {:induction false} NoCapturesClosed(es: seq<Expr>, sub: Subst)
    requires forall x :: x in sub ==> Closed(sub[x])
    ensures NoCaptures(es, sub)
    decreases es, 0
  {
    if es != [] {
      NoCapturesClosed(es[..|es| - 1], sub);
      NoCaptureClosed(es[|es| - 1], sub);
    }
  }

  // ----- variables for variables -----

  predicate ToVars(sub: Subst)
  {
    forall x :: x in sub ==> sub[x].Var?
  }

  function Replaced(sub: Subst, x: string): string
    requires ToVars(sub)
  {
    if x in sub then sub[x].name else x
  }

  /** The occurrences other than of x, and, once substituted, other than of x. */
  function Unbound(xs: seq<string>, x: string, sub: Subst): (r: seq<string>)
    requires ToVars(sub)
    ensures |r| <= |xs|
  {
    if xs == [] then [] else
    var y := xs[|xs| - 1];
    var r := Unbound(xs[..|xs| - 1], x, sub);
    if y == x || Replaced(sub, y) == x then r else r + [y]
  }

  /** The free occurrences of variables that are still free after the substitution, in order. */
  function StillFree(e: Expr, sub: Subst): seq<string>
    requires ToVars(sub)
    decreases e, 1
  {
    match e
    case Var(x) => [x]
    case Lit(_) => []
    case App(_, args) => StillFreeAll(args, sub)
    case Not(a) => StillFree(a, sub)
    case Op(_, l, r) => StillFree(l, sub) + StillFree(r, sub)
    case Ite(c, t, f) => StillFree(c, sub) + StillFree(t, sub) + StillFree(f, sub)
    case Quant(_, x, b) => Unbound(StillFree(b, sub - {x}), x, sub - {x})
  }

  function StillFreeAll(es: seq<Expr>, sub: Subst): seq<string>
    requires ToVars(sub)
    decreases es, 0
  {
    if es == [] then [] else StillFreeAll(es[..|es| - 1], sub) + StillFree(es[|es| - 1], sub)
  }

  /** The free occurrences of variables, in order. */
  function Free(e: Expr): seq<string> { StillFree(e, map[]) }

  function FreeAll(es: seq<Expr>): seq<string> { StillFreeAll(es, map[]) }

  function ReplacedAll(xs: seq<string>, sub: Subst): (r: seq<string>)
    requires ToVars(sub)
    ensures |r| == |xs|
  {
    seq(|xs|, k requires 0 <= k < |xs| => Replaced(sub, xs[k]))
  }

  function Times(xs: seq<string>, x: string): nat
  {
    multiset(xs)[x]
  }

  lemma TimesLast(xs: seq<string>, x: string)
    requires xs != []
    ensures Times(xs, x) == Times(xs[..|xs| - 1], x) + (if xs[|xs| - 1] == x then 1 else 0)
  {
    assert xs == xs[..|xs| - 1] + [xs[|xs| - 1]];
  }

  lemma TimesBoth(xs: seq<string>, ys: seq<string>, x: string)
    ensures Times(xs + ys, x) == Times(xs, x) + Times(ys, x)
  {
  }

  /** What Unbound drops: the occurrences of x, and more exactly when one of the others becomes x. */
  lemma {:induction false} UnboundTimes(xs: seq<string>, x: string, sub: Subst, z: string)
    requires ToVars(sub)
    ensures var r := Unbound(xs, x, sub);
            && (z != x && Replaced(sub, z) != x ==> Times(r, z) == Times(xs, z)) && Times(r, x) == 0
            && |r| + Times(xs, x) <= |xs|
            && (z in xs && z != x && Replaced(sub, z) == x ==> |r| + Times(xs, x) < |xs|)
  {
    if xs != [] {
      UnboundTimes(xs[..|xs| - 1], x, sub, z);
      TimesLast(xs, x);
      TimesLast(xs, z);
      var r, before := Unbound(xs, x, sub), Unbound(xs[..|xs| - 1], x, sub);
      if r != before {
        TimesLast(r, z);
        TimesLast(r, x);
        assert r[..|r| - 1] == before;
      }
    }
  }

  lemma {:induction false} UnboundSame(xs: seq<string>, x: string, sub: Subst)
    requires ToVars(sub) && forall y :: y in xs && y != x ==> Replaced(sub, y) != x
    ensures Unbound(xs, x, sub) == Unbound(xs, x, map[]) && |Unbound(xs, x, sub)| + Times(xs, x) == |xs|
  {
    if xs != [] {
      UnboundSame(xs[..|xs| - 1], x, sub);
      TimesLast(xs, x);
    }
  }

  lemma {:induction false} FreeIs(e: Expr)
    ensures forall x :: x in Free(e) <==> x in FreeVars(e)
    decreases e, 1
  {
    match e
    case Var(_) =>
    case Lit(_) =>
    case App(_, args) => FreeAllIs(args);
    case Not(a) => FreeIs(a);
    case Op(_, l, r) => FreeIs(l); FreeIs(r);
    case Ite(c, t, f) => FreeIs(c); FreeIs(t); FreeIs(f);
    case Quant(_, x, b) =>
      FreeIs(b);
      NothingLess(x);
      forall z
        ensures z in Free(e) <==> z in FreeVars(e)
      {
        UnboundTimes(Free(b), x, map[], z);
        assert z in Free(e) <==> Times(Free(e), z) > 0;
        assert z in Free(b) <==> Times(Free(b), z) > 0;
      }
  }

  lemma {:induction false} FreeAllIs(es: seq<Expr>)
    ensures forall x :: x in FreeAll(es) <==> x in FreeVarsAll(es)
    decreases es, 0
  {
    if es != [] {
      FreeAllIs(es[..|es| - 1]);
      FreeIs(es[|es| - 1]);
    }
  }

  /** What the substitution leaves free: never more, everything exactly without capture. */
  ghost predicate Leaves(xs: seq<string>, still: seq<string>, sub: Subst, safe: bool)
  {
    && (forall z :: z !in sub ==> Times(still, z) == Times(xs, z))
    && |still| <= |xs| && (safe ==> still == xs) && (|still| == |xs| ==> safe)
  }

  lemma LeavesBoth(xs: seq<string>, still: seq<string>, ys: seq<string>, still': seq<string>, sub: Subst, safe: bool,
                   safe': bool)
    requires Leaves(xs, still, sub, safe) && Leaves(ys, still', sub, safe')
    ensures Leaves(xs + ys, still + still', sub, safe && safe')
  {
    forall z | z !in sub
      ensures Times(still + still', z) == Times(xs + ys, z)
    {
      TimesBoth(xs, ys, z);
      TimesBoth(still, still', z);
    }
  }

  /** No other occurrence becomes x. */
  predicate Spares(xs: seq<string>, x: string, sub: Subst)
    requires ToVars(sub)
  {
    forall y :: y in xs && y != x ==> Replaced(sub, y) != x
  }

  lemma LeavesUnbound(xs: seq<string>, still: seq<string>, x: string, sub: Subst, safe: bool)
    requires ToVars(sub) && x !in sub && Leaves(xs, still, sub, safe)
    ensures Leaves(Unbound(xs, x, map[]), Unbound(still, x, sub), sub, Spares(xs, x, sub) && safe)
  {
    hide Unbound, Times;
    forall z | z !in sub
      ensures Times(Unbound(still, x, sub), z) == Times(Unbound(xs, x, map[]), z)
    {
      UnboundTimes(still, x, sub, z);
      UnboundTimes(xs, x, map[], z);
    }
    UnboundTimes(still, x, sub, x);
    UnboundSame(xs, x, map[]);
    if safe && Spares(xs, x, sub) {
      UnboundSame(xs, x, sub);
    } else if safe {
      var y :| y in xs && y != x && Replaced(sub, y) == x;
      UnboundTimes(still, x, sub, y);
    }
  }

  lemma SparesIs(b: Expr, x: string, sub: Subst)
    requires ToVars(sub)
    ensures Spares(Free(b), x, sub - {x}) <==>
            forall y :: y in sub && y != x && y in FreeVars(b) ==> x !in FreeVars(sub[y])
  {
    hide Free;
    FreeIs(b);
  }

  lemma {:induction false} CaptureLoses(e: Expr, sub: Subst)
    requires ToVars(sub)
    ensures Leaves(Free(e), StillFree(e, sub), sub, NoCapture(e, sub))
    decreases e, 1
  {
    hide Leaves;
    match e
    case Var(x) => LeavesAll([x], sub);
    case Lit(_) => LeavesAll([], sub);
    case App(_, args) => CapturesLose(args, sub);
    case Not(a) => CaptureLoses(a, sub);
    case Op(_, l, r) =>
      CaptureLoses(l, sub); CaptureLoses(r, sub);
      LeavesBoth(Free(l), StillFree(l, sub), Free(r), StillFree(r, sub), sub, NoCapture(l, sub), NoCapture(r, sub));
    case Ite(c, t, f) =>
      CaptureLoses(c, sub); CaptureLoses(t, sub); CaptureLoses(f, sub);
      LeavesBoth(Free(c), StillFree(c, sub), Free(t), StillFree(t, sub), sub, NoCapture(c, sub), NoCapture(t, sub));
      LeavesBoth(Free(c) + Free(t), StillFree(c, sub) + StillFree(t, sub), Free(f), StillFree(f, sub), sub,
                 NoCapture(c, sub) && NoCapture(t, sub), NoCapture(f, sub));
    case Quant(_, x, b) =>
      CaptureLoses(b, sub - {x});
      LeavesUnbound(Free(b), StillFree(b, sub - {x}), x, sub - {x}, NoCapture(b, sub - {x}));
      SparesIs(b, x, sub);
      NothingLess(x);
      LeavesWider(Free(e), StillFree(e, sub), x, sub, NoCapture(e, sub));
  }

  lemma LeavesAll(xs: seq<string>, sub: Subst)
    ensures Leaves(xs, xs, sub, true)
  {
  }

  lemma LeavesWider(xs: seq<string>, still: seq<string>, x: string, sub: Subst, safe: bool)
    requires Leaves(xs, still, sub - {x}, safe)
    ensures Leaves(xs, still, sub, safe)
  {
  }

  lemma {:induction false} CapturesLose(es: seq<Expr>, sub: Subst)
    requires ToVars(sub)
    ensures Leaves(FreeAll(es), StillFreeAll(es, sub), sub, NoCaptures(es, sub))
    decreases es, 0
  {
    hide Leaves;
    if es == [] {
      LeavesAll([], sub);
    } else {
      var n := |es| - 1;
      CapturesLose(es[..n], sub);
      CaptureLoses(es[n], sub);
      LeavesBoth(FreeAll(es[..n]), StillFreeAll(es[..n], sub), Free(es[n]), StillFree(es[n], sub), sub,
                 NoCaptures(es[..n], sub), NoCapture(es[n], sub));
    }
  }

  lemma ReplacedBoth(xs: seq<string>, ys: seq<string>, sub: Subst)
    requires ToVars(sub)
    ensures ReplacedAll(xs + ys, sub) == ReplacedAll(xs, sub) + ReplacedAll(ys, sub)
  {
  }

  lemma {:induction false} ReplacedUnbound(xs: seq<string>, x: string, sub: Subst)
    requires ToVars(sub)
    ensures Unbound(ReplacedAll(xs, sub - {x}), x, map[]) == ReplacedAll(Unbound(xs, x, sub - {x}), sub)
  {
    if xs != [] {
      hide ToVars, ReplacedAll, Unbound;
      var n := |xs| - 1;
      assert xs == xs[..n] + [xs[n]];
      ReplacedUnbound(xs[..n], x, sub);
      ReplacedSnoc(xs[..n], xs[n], sub - {x});
      LastUnbound(xs, x, sub - {x});
      LastUnbound(ReplacedAll(xs, sub - {x}), x, map[]);
      ReplacedSnoc(Unbound(xs[..n], x, sub - {x}), xs[n], sub);
      LastReplaced(xs[n], x, sub);
    } else {
      ReplacedNone(sub);
    }
  }

  /** The last occurrence goes if it is x or becomes x. */
  lemma LastUnbound(xs: seq<string>, x: string, sub: Subst)
    requires ToVars(sub) && xs != []
    ensures var y, r := xs[|xs| - 1], Unbound(xs[..|xs| - 1], x, sub);
            Unbound(xs, x, sub) == if y == x || Replaced(sub, y) == x then r else r + [y]
  {
  }

  lemma LastReplaced(y: string, x: string, sub: Subst)
    requires ToVars(sub)
    ensures Replaced(map[], Replaced(sub - {x}, y)) == Replaced(sub - {x}, y)
    ensures y != x ==> Replaced(sub - {x}, y) == Replaced(sub, y)
    ensures y == x ==> Replaced(sub - {x}, y) == x
  {
  }

  lemma ReplacedSnoc(xs: seq<string>, x: string, sub: Subst)
    requires ToVars(sub)
    ensures ReplacedAll(xs + [x], sub) == ReplacedAll(xs, sub) + [Replaced(sub, x)]
    ensures ReplacedAll(xs + [x], sub)[..|xs|] == ReplacedAll(xs, sub)
  {
  }

  /** The free occurrences after the substitution are those that it leaves free. */
  lemma {:induction false} FreeAfter(e: Expr, sub: Subst)
    requires ToVars(sub)
    ensures Free(SubstExpr(e, sub)) == ReplacedAll(StillFree(e, sub), sub)
    decreases e, 1
  {
    hide ReplacedAll;
    match e
    case Var(x) => ReplacedOne(x, sub);
    case Lit(_) => ReplacedNone(sub);
    case App(_, args) => FreeAfterAll(args, sub);
    case Not(a) => FreeAfter(a, sub);
    case Op(_, l, r) =>
      FreeAfter(l, sub); FreeAfter(r, sub);
      ReplacedBoth(StillFree(l, sub), StillFree(r, sub), sub);
    case Ite(c, t, f) =>
      FreeAfter(c, sub); FreeAfter(t, sub); FreeAfter(f, sub);
      ReplacedBoth(StillFree(c, sub), StillFree(t, sub), sub);
      ReplacedBoth(StillFree(c, sub) + StillFree(t, sub), StillFree(f, sub), sub);
    case Quant(_, x, b) =>
      FreeAfter(b, sub - {x});
      NothingLess(x);
      ReplacedUnbound(StillFree(b, sub - {x}), x, sub);
  }

  lemma NothingLess(x: string)
    ensures var none: Subst := map[]; none - {x} == none
  {
  }

  lemma ReplacedOne(x: string, sub: Subst)
    requires ToVars(sub)
    ensures ReplacedAll([x], sub) == [Replaced(sub, x)]
  {
  }

  lemma ReplacedNone(sub: Subst)
    requires ToVars(sub)
    ensures ReplacedAll([], sub) == []
  {
  }

  lemma {:induction false} FreeAfterAll(es: seq<Expr>, sub: Subst)
    requires ToVars(sub)
    ensures FreeAll(SubstExprs(es, sub)) == ReplacedAll(StillFreeAll(es, sub), sub)
    decreases es, 0
  {
    hide ReplacedAll;
    if es == [] {
      ReplacedNone(sub);
    } else {
      var n := |es| - 1;
      FreeAfterAll(es[..n], sub);
      FreeAfter(es[n], sub);
      ReplacedBoth(StillFreeAll(es[..n], sub), StillFree(es[n], sub), sub);
      var r := SubstExprs(es, sub);
      assert r[..|r| - 1] == SubstExprs(es[..n], sub);
    }
  }

  /** Substituting variables for variables, every free occurrence stays free and is replaced exactly when no
      quantifier binds the variable that is put in below it. */
  lemma NoCaptureExact(e: Expr, sub: Subst)
    requires ToVars(sub)
    ensures Free(SubstExpr(e, sub)) == ReplacedAll(Free(e), sub) <==> NoCapture(e, sub)
  {
    CaptureLoses(e, sub);
    FreeAfter(e, sub);
  }

  /** The symbols of a substitution's terms. */
  function SubSyms(sub: Subst): set<Sym>
  {
    set x, y | x in sub && y in Syms(sub[x]) :: y
  }

  lemma {:induction false} SubstSyms(e: Expr, sub: Subst)
    ensures Syms(SubstExpr(e, sub)) <= Syms(e) + SubSyms(sub)
    decreases e, 1
  {
    match e
    case Var(_) =>
    case Lit(_) =>
    case App(_, args) => SubstAllSyms(args, sub);
    case Not(a) => SubstSyms(a, sub);
    case Op(_, l, r) => SubstSyms(l, sub); SubstSyms(r, sub);
    case Ite(c, t, f) => SubstSyms(c, sub); SubstSyms(t, sub); SubstSyms(f, sub);
    case Quant(_, x, b) => SubstSyms(b, sub - {x}); assert SubSyms(sub - {x}) <= SubSyms(sub);
  }

  lemma {:induction false} SubstAllSyms(es: seq<Expr>, sub: Subst)
    ensures SymsAll(SubstExprs(es, sub)) <= SymsAll(es) + SubSyms(sub)
    decreases es, 0
  {
    if es != [] {
      SubstAllSyms(es[..|es| - 1], sub);
      SubstSyms(es[|es| - 1], sub);
      var r := SubstExprs(es, sub);
      assert r[..|r| - 1] == SubstExprs(es[..|es| - 1], sub);
    }
  }
}
