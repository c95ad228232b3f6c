/**
 Runs do not depend on the choice of names: renaming the symbols of an action by a permutation renames
 its runs, and symbols that the action does not mention may have any value and keep it.
 */
module Equivariance {
  import opened Options
  import opened Names
  import opened Logic
  import opened ClauseOps
  import opened Updates
  import opened Hiding
  import opened Substitution
  import opened Actions
  import opened Runs

  // ----- permutations -----

  datatype Perm = Perm(to: Id -> Id, from: Id -> Id)

  ghost predicate Bijective(p: Perm)
  {
    forall i: Id :: p.from(p.to(i)) == i && p.to(p.from(i)) == i
  }

  function Back(p: Perm): Perm { Perm(p.from, p.to) }

  function Plainly(): Perm { Perm((i: Id) => i, (i: Id) => i) }

  function PermSym(x: Sym, p: Perm): Sym { Sym(x.kind, p.to(x.id)) }

  function PermIds(xs: seq<Id>, p: Perm): (r: seq<Id>)
    ensures |r| == |xs| && forall k :: 0 <= k < |xs| ==> r[k] == p.to(xs[k])
  {
    seq(|xs|, k requires 0 <= k < |xs| => p.to(xs[k]))
  }

  function PermExpr(e: Expr, p: Perm): (r: Expr)
    ensures r.Var? <==> e.Var?
    ensures e.Var? ==> r == e
    decreases e, 1
  {
    match e
    case Var(_) => e
    case Lit(_) => e
    case App(f, args) => App(PermSym(f, p), PermExprs(args, p))
    case Not(a) => Not(PermExpr(a, p))
    case Op(op, l, r) => Op(op, PermExpr(l, p), PermExpr(r, p))
    case Ite(c, t, f) => Ite(PermExpr(c, p), PermExpr(t, p), PermExpr(f, p))
    case Quant(all, x, b) => Quant(all, x, PermExpr(b, p))
  }

  function PermExprs(es: seq<Expr>, p: Perm): (r: seq<Expr>)
    ensures |r| == |es| && forall k :: 0 <= k < |es| ==> r[k] == PermExpr(es[k], p)
    decreases es, 0
  {
    if es == [] then [] else PermExprs(es[..|es| - 1], p) + [PermExpr(es[|es| - 1], p)]
  }

  function PermTarget(target: Target, p: Perm): Target
  {
    Target(p.to(target.x), PermExprs(target.args, p))
  }

  function PermTargets(outs: seq<Target>, p: Perm): (r: seq<Target>)
    ensures |r| == |outs| && forall k :: 0 <= k < |outs| ==> r[k] == PermTarget(outs[k], p)
  {
    seq(|outs|, k requires 0 <= k < |outs| => PermTarget(outs[k], p))
  }

  function PermSome(some: SomeCond, p: Perm): SomeCond
  {
    SomeCond(PermIds(some.params, p), PermExpr(some.f, p), some.optimum, PermExpr(some.index, p))
  }

  function PermRank(rank: Option<Expr>, p: Perm): Option<Expr>
  {
    match rank case None => None case Some(r) => Some(PermExpr(r, p))
  }

  /** A nested call refers to its callee by name, so the callee and its formals stay as they are. */
  function Permute(a: Action, p: Perm): Action
    decreases a, 1
  {
    match a
    case Assume(f) => Assume(PermExpr(f, p))
    case Assert(f) => Assert(PermExpr(f, p))
    case Assign(target, rhs) => Assign(PermTarget(target, p), PermExpr(rhs, p))
    case Havoc(target) => Havoc(PermTarget(target, p))
    case Sequence(es) => Sequence(PermuteAll(es, p))
    case Choice(bs) => Choice(PermuteAll(bs, p))
    case If(c, thn, els) => If(PermExpr(c, p), Permute(thn, p), Permute(els, p))
    case Local(xs, body) => Local(PermIds(xs, p), Permute(body, p))
    case BindOldsAction(inner) => BindOldsAction(Permute(inner, p))
    case While(c, invs, rank, body) =>
      While(PermExpr(c, p), PermExprs(invs, p), PermRank(rank, p), Permute(body, p))
    case IfSome(some, thn, els) => IfSome(PermSome(some, p), Permute(thn, p), Permute(els, p))
    case Call(params, results, callee, actuals, outs) =>
      Call(params, results, callee, PermExprs(actuals, p), PermTargets(outs, p))
  }

  function PermuteAll(es: seq<Action>, p: Perm): (r: seq<Action>)
    ensures |r| == |es| && forall k :: 0 <= k < |es| ==> r[k] == Permute(es[k], p)
    decreases es, 0
  {
    if es == [] then [] else PermuteAll(es[..|es| - 1], p) + [Permute(es[|es| - 1], p)]
  }

  // ----- which symbols an action mentions -----

  /** The expression mentions none of xs, and no old_ symbol of ys. */
  predicate ExprAvoids(e: Expr, xs: set<Id>, ys: set<Id>)
  {
    forall y :: y in Syms(e) ==> if y.kind.Old? then y.id !in ys else y.id !in xs
  }

  predicate ExprsAvoid(es: seq<Expr>, xs: set<Id>, ys: set<Id>)
  {
    forall e :: e in es ==> ExprAvoids(e, xs, ys)
  }

  function Others(xs: set<Id>, ids: seq<Id>): set<Id>
  {
    set i | i in xs && i !in ids
  }

  predicate TargetAvoids(target: Target, xs: set<Id>, ys: set<Id>)
  {
    target.x !in xs && ExprsAvoid(target.args, xs, ys)
  }

  predicate SomeAvoids(some: SomeCond, xs: set<Id>, ys: set<Id>)
  {
    ExprAvoids(some.f, Others(xs, some.params), ys) && ExprAvoids(some.index, Others(xs, some.params), ys)
  }

  /** Outside its own scopes the action mentions none of xs and no old_ symbol of ys; and callees mention
      none of zs but their formals and locals. */
  predicate ActionAvoids(a: Action, zs: set<Id>, xs: set<Id>, ys: set<Id>)
    decreases a, 0
  {
    match a
    case Assume(f) => ExprAvoids(f, xs, ys)
    case Assert(f) => ExprAvoids(f, xs, ys)
    case Assign(target, rhs) => TargetAvoids(target, xs, ys) && ExprAvoids(rhs, xs, ys)
    case Havoc(target) => TargetAvoids(target, xs, ys)
    case Sequence(es) => forall e :: e in es ==> ActionAvoids(e, zs, xs, ys)
    case Choice(bs) => forall b :: b in bs ==> ActionAvoids(b, zs, xs, ys)
    case If(c, thn, els) => ExprAvoids(c, xs, ys) && ActionAvoids(thn, zs, xs, ys) && ActionAvoids(els, zs, xs, ys)
    case Local(ids, body) => ActionAvoids(body, zs, Others(xs, ids), ys)
    case BindOldsAction(inner) => ActionAvoids(inner, zs, xs, xs)
    case While(c, _, _, body) => ExprAvoids(c, xs, ys) && ActionAvoids(body, zs, xs, ys)
    case IfSome(some, thn, els) =>
      && SomeAvoids(some, xs, ys)
      && ActionAvoids(thn, zs, Others(xs, some.params), ys) && ActionAvoids(els, zs, xs, ys)
    case Call(params, results, callee, actuals, outs) =>
      && CalleeAvoids(params + results, callee, zs)
      && ExprsAvoid(actuals, xs, ys) && forall k :: 0 <= k < |outs| ==> TargetAvoids(outs[k], xs, ys)
  }

  predicate CalleeAvoids(fs: seq<Id>, callee: Action, zs: set<Id>)
    decreases callee, 1
  {
    ActionAvoids(callee, Others(zs, fs), Others(zs, fs), Others(zs, fs))
  }

  // ----- renamed states -----

  /** The permutation moves symbols of the set only. */
  ghost predicate MovesOnly(p: Perm, zs: set<Id>)
  {
    forall i: Id :: i !in zs ==> p.to(i) == i
  }

  /** The symbols that are moved and those that may differ are among zs. */
  ghost predicate Confined(p: Perm, zs: set<Id>, xs: set<Id>)
  {
    MovesOnly(p, zs) && xs <= zs
  }

  /** s' is s with its symbols renamed, those in xs apart. */
  ghost predicate Twin(p: Perm, xs: set<Id>, s: State, s': State)
  {
    forall i: Id :: i !in xs ==> s'(p.to(i)) == s(i)
  }

  /** The symbols in xs have the same values, after renaming. */
  ghost predicate Kept(p: Perm, xs: set<Id>, s': State, t': State)
  {
    forall i: Id :: i in xs ==> t'(p.to(i)) == s'(p.to(i))
  }

  /** The twin of m that has the values of s' at the symbols in xs. */
  ghost function Carry(p: Perm, xs: set<Id>, m: State, s': State): State
  {
    (j: Id) => if p.from(j) in xs then s'(j) else m(p.from(j))
  }

  lemma CarryTwin(p: Perm, xs: set<Id>, m: State, s': State) returns (m': State)
    requires Bijective(p)
    ensures Twin(p, xs, m, m') && Kept(p, xs, s', m')
  {
    m' := Carry(p, xs, m, s');
  }

  // ----- expressions -----

  ghost predicate TwinVal(p: Perm, e: Expr, v: Val, v': Val)
  {
    forall x :: x in Syms(e) ==> v'(PermSym(x, p)) == v(x)
  }

  ghost predicate TwinVals(p: Perm, es: seq<Expr>, v: Val, v': Val)
  {
    forall x :: x in SymsAll(es) ==> v'(PermSym(x, p)) == v(x)
  }

  lemma {:induction false} EvalTwin(e: Expr, p: Perm, v: Val, v': Val, env: Env)
    requires TwinVal(p, e, v, v')
    ensures Eval(PermExpr(e, p), v', env) == Eval(e, v, env)
    decreases e, 1
  {
    match e
    case Var(_) =>
    case Lit(_) =>
    case App(f, args) => EvalAllTwin(args, p, v, v', env);
    case Not(a) => EvalTwin(a, p, v, v', env);
    case Op(_, l, r) => EvalTwin(l, p, v, v', env); EvalTwin(r, p, v, v', env);
    case Ite(c, t, f) => EvalTwin(c, p, v, v', env); EvalTwin(t, p, v, v', env); EvalTwin(f, p, v, v', env);
    case Quant(_, x, b) =>
      forall n: int
        ensures Eval(PermExpr(b, p), v', Bind(env, x, n)) == Eval(b, v, Bind(env, x, n))
      {
        EvalTwin(b, p, v, v', Bind(env, x, n));
      }
  }

  lemma {:induction false} EvalAllTwin(es: seq<Expr>, p: Perm, v: Val, v': Val, env: Env)
    requires TwinVals(p, es, v, v')
    ensures EvalAll(PermExprs(es, p), v', env) == EvalAll(es, v, env)
    decreases es, 0
  {
    if es != [] {
      var n := |es| - 1;
      EvalAllTwin(es[..n], p, v, v', env);
      EvalTwin(es[n], p, v, v', env);
      var r := PermExprs(es, p);
      assert r[..n] == PermExprs(es[..n], p) && r[n] == PermExpr(es[n], p);
    }
  }

  lemma EvalNow(e: Expr, p: Perm, xs: set<Id>, ys: set<Id>, o: State, s: State, o': State, s': State, env: Env)
    requires ExprAvoids(e, xs, ys) && Twin(p, ys, o, o') && Twin(p, xs, s, s')
    ensures Eval(PermExpr(e, p), Now(o', s'), env) == Eval(e, Now(o, s), env)
  {
    forall x | x in Syms(e)
      ensures Now(o', s')(PermSym(x, p)) == Now(o, s)(x)
    {
      MkIs(o, s, s, x);
      MkIs(o', s', s', PermSym(x, p));
    }
    EvalTwin(e, p, Now(o, s), Now(o', s'), env);
  }

  lemma TrueTwin(f: Expr, p: Perm, xs: set<Id>, ys: set<Id>, o: State, s: State, o': State, s': State)
    requires ExprAvoids(f, xs, ys) && Twin(p, ys, o, o') && Twin(p, xs, s, s')
    ensures True(PermExpr(f, p), o', s') <==> True(f, o, s)
    ensures CondHolds(PermExpr(f, p), o', s') <==> CondHolds(f, o, s)
  {
    forall env: Env
      ensures Eval(PermExpr(f, p), Now(o', s'), env) == Eval(f, Now(o, s), env)
    {
      EvalNow(f, p, xs, ys, o, s, o', s', env);
    }
    assert CondHolds(f, o, s) <==> Eval(f, Now(o, s), map[]) != 0;
    assert CondHolds(PermExpr(f, p), o', s') <==> Eval(PermExpr(f, p), Now(o', s'), map[]) != 0;
  }

  lemma {:induction false} IndexEnvTwin(args: seq<Expr>, p: Perm, a: seq<int>)
    requires |a| == |args|
    ensures IndexEnv(PermExprs(args, p), a) == IndexEnv(args, a)
  {
    if args != [] {
      var n := |args| - 1;
      IndexEnvTwin(args[..n], p, a[..n]);
      assert PermExprs(args, p)[..n] == PermExprs(args[..n], p);
    }
  }

  lemma AddressedTwin(args: seq<Expr>, p: Perm, xs: set<Id>, ys: set<Id>, o: State, s: State, o': State, s': State,
                      a: seq<int>)
    requires ExprsAvoid(args, xs, ys) && Twin(p, ys, o, o') && Twin(p, xs, s, s') && |a| == |args|
    ensures Addressed(PermExprs(args, p), Now(o', s'), a) <==> Addressed(args, Now(o, s), a)
  {
    forall k | 0 <= k < |args|
      ensures Eval(PermExprs(args, p)[k], Now(o', s'), map[]) == Eval(args[k], Now(o, s), map[])
    {
      assert args[k] in args;
      EvalNow(args[k], p, xs, ys, o, s, o', s', map[]);
    }
  }

  // ----- transferring the parts of a run -----

  lemma SameTwin(p: Perm, xs: set<Id>, s: State, t: State, s': State, t': State)
    requires Bijective(p) && Twin(p, xs, s, s') && Twin(p, xs, t, t') && Kept(p, xs, s', t')
    requires Same(s, t)
    ensures Same(s', t')
  {
    forall j: Id
      ensures t'(j) == s'(j)
    {
      assert j == p.to(p.from(j));
    }
  }

  lemma PermIdsHas(ids: seq<Id>, p: Perm, i: Id)
    requires Bijective(p)
    ensures p.to(i) in PermIds(ids, p) <==> i in ids
  {
    if k :| 0 <= k < |ids| && ids[k] == i {
      assert PermIds(ids, p)[k] == p.to(i);
    }
    if k :| 0 <= k < |ids| && PermIds(ids, p)[k] == p.to(i) {
      assert p.from(p.to(ids[k])) == ids[k];
    }
  }

  // ----- scopes -----

  lemma OffScope(p: Perm, xs: set<Id>, ids: seq<Id>, s: State, s1: State, s': State, s1': State)
    requires Bijective(p) && Twin(p, xs, s, s') && SameOff(ids, s1, s)
    requires Twin(p, Others(xs, ids), s1, s1') && Kept(p, Others(xs, ids), s', s1')
    ensures SameOff(PermIds(ids, p), s1', s')
  {
    forall j: Id | j !in PermIds(ids, p)
      ensures s1'(j) == s'(j)
    {
      var i := p.from(j);
      assert j == p.to(i);
      PermIdsHas(ids, p, i);
      if i in xs { assert i in Others(xs, ids); } else { assert s1'(p.to(i)) == s1(i) && s'(p.to(i)) == s(i); }
    }
  }

  lemma OnScope(p: Perm, xs: set<Id>, ids: seq<Id>, s: State, t: State, s': State, t': State)
    requires Twin(p, xs, s, s') && Twin(p, xs, t, t') && Kept(p, xs, s', t') && SameOn(ids, s, t)
    ensures SameOn(PermIds(ids, p), s', t')
  {
    forall j | j in PermIds(ids, p)
      ensures s'(j) == t'(j)
    {
      var k :| 0 <= k < |ids| && PermIds(ids, p)[k] == j;
      if ids[k] !in xs { assert s'(p.to(ids[k])) == s(ids[k]) && t'(p.to(ids[k])) == t(ids[k]) && ids[k] in ids; }
    }
  }

  /** States inside a scope, whose own symbols agree again. */
  lemma ScopeTwin(p: Perm, zs: set<Id>, xs: set<Id>, ids: seq<Id>, s: State, s1: State, s': State) returns (s1': State)
    requires Bijective(p) && Confined(p, zs, xs) && Twin(p, xs, s, s') && SameOff(ids, s1, s)
    ensures Confined(p, zs, Others(xs, ids)) && Twin(p, Others(xs, ids), s1, s1') && Kept(p, Others(xs, ids), s', s1')
    ensures SameOff(PermIds(ids, p), s1', s')
  {
    s1' := CarryTwin(p, Others(xs, ids), s1, s');
    OffScope(p, xs, ids, s, s1, s', s1');
  }

  lemma KeptScope(p: Perm, xs: set<Id>, ids: seq<Id>, s': State, t': State, s1': State, t1': State)
    requires Kept(p, xs, s', t') && Kept(p, Others(xs, ids), s', s1') && Kept(p, Others(xs, ids), t', t1')
    ensures Kept(p, Others(xs, ids), s1', t1')
  {
    forall i: Id | i in Others(xs, ids)
      ensures t1'(p.to(i)) == s1'(p.to(i))
    {
      assert i in xs;
    }
  }

  lemma AssignedTwin(target: Target, rhs: Expr, p: Perm, xs: set<Id>, ys: set<Id>,
                     o: State, s: State, t: State, o': State, s': State, t': State)
    requires Bijective(p) && Twin(p, ys, o, o') && Twin(p, xs, s, s') && Twin(p, xs, t, t') && Kept(p, xs, s', t')
    requires TargetAvoids(target, xs, ys) && ExprAvoids(rhs, xs, ys) && Assigned(target, rhs, o, s, t)
    ensures Assigned(PermTarget(target, p), PermExpr(rhs, p), o', s', t')
  {
    var target' := PermTarget(target, p);
    forall j: Id | j != target'.x
      ensures t'(j) == s'(j)
    {
      assert j == p.to(p.from(j));
    }
    forall a: seq<int> | |a| == |target'.args|
      ensures t'(target'.x)(a) == if Addressed(target'.args, Now(o', s'), a)
                                  then Eval(PermExpr(rhs, p), Now(o', s'), IndexEnv(target'.args, a))
                                  else s'(target'.x)(a)
    {
      AddressedTwin(target.args, p, xs, ys, o, s, o', s', a);
      IndexEnvTwin(target.args, p, a);
      EvalNow(rhs, p, xs, ys, o, s, o', s', IndexEnv(target.args, a));
      assert t(target.x)(a) == if Addressed(target.args, Now(o, s), a)
                               then Eval(rhs, Now(o, s), IndexEnv(target.args, a)) else s(target.x)(a);
    }
  }

  lemma HavockedTwin(target: Target, p: Perm, xs: set<Id>, ys: set<Id>,
                     o: State, s: State, t: State, o': State, s': State, t': State)
    requires Bijective(p) && Twin(p, ys, o, o') && Twin(p, xs, s, s') && Twin(p, xs, t, t') && Kept(p, xs, s', t')
    requires TargetAvoids(target, xs, ys) && Havocked(target, o, s, t)
    ensures Havocked(PermTarget(target, p), o', s', t')
  {
    var target' := PermTarget(target, p);
    forall j: Id | j != target'.x
      ensures t'(j) == s'(j)
    {
      assert j == p.to(p.from(j));
    }
    forall a: seq<int> | |a| == |target'.args| && !Addressed(target'.args, Now(o', s'), a)
      ensures t'(target'.x)(a) == s'(target'.x)(a)
    {
      AddressedTwin(target.args, p, xs, ys, o, s, o', s', a);
    }
  }

  lemma DeliveredNone(results: seq<Id>, x: State, o: State, r: State, t: State)
    requires results == []
    ensures Delivered([], results, x, o, r, t) <==> Same(r, t)
  {
  }

  lemma DeliveredLast(outs: seq<Target>, results: seq<Id>, x: State, o: State, r: State, t: State) returns (m: State)
    requires |outs| == |results| && outs != [] && Delivered(outs, results, x, o, r, t)
    ensures var n := |outs| - 1;
            Delivered(outs[..n], results[..n], x, o, r, m) && Assigned(outs[n], Lit(x(results[n])([])), o, m, t)
  {
    hide Assigned;
    var n := |outs| - 1;
    m :| Delivered(outs[..n], results[..n], x, o, r, m) && Assigned(outs[n], Lit(x(results[n])([])), o, m, t);
  }

  lemma DeliveredSnoc(outs: seq<Target>, results: seq<Id>, x: State, o: State, r: State, m: State, t: State)
    requires |outs| == |results| && outs != []
    requires var n := |outs| - 1;
             Delivered(outs[..n], results[..n], x, o, r, m) && Assigned(outs[n], Lit(x(results[n])([])), o, m, t)
    ensures Delivered(outs, results, x, o, r, t)
  {
    hide Assigned;
  }

  lemma LitAvoids(n: int, xs: set<Id>, ys: set<Id>)
    ensures ExprAvoids(Lit(n), xs, ys)
  {
  }

  lemma {:induction false} DeliveredTwin(outs: seq<Target>, results: seq<Id>, p: Perm, xs: set<Id>, ys: set<Id>,
                                         x: State, x': State, o: State, r: State, t: State, o': State, r': State,
                                           t': State)
    requires |outs| == |results| && Bijective(p)
    requires Twin(p, ys, o, o') && Twin(p, xs, r, r') && Twin(p, xs, t, t') && Kept(p, xs, r', t')
    requires (forall i :: i in results ==> x'(i) == x(i)) && forall k :: 0 <= k < |outs| ==>
             TargetAvoids(outs[k], xs, ys)
    requires Delivered(outs, results, x, o, r, t)
    ensures Delivered(PermTargets(outs, p), results, x', o', r', t')
  {
    hide Assigned, Bijective, Twin, Kept, Same, PermTarget, ExprAvoids, TargetAvoids, Delivered;
    if outs == [] {
      DeliveredNone(results, x, o, r, t);
      DeliveredNone(results, x', o', r', t');
      SameTwin(p, xs, r, t, r', t');
    } else {
      var n := |outs| - 1;
      var value := Lit(x(results[n])([]));
      var m := DeliveredLast(outs, results, x, o, r, t);
      var m' := CarryTwin(p, xs, m, r');
      DeliveredTwin(outs[..n], results[..n], p, xs, ys, x, x', o, r, m, o', r', m');
      KeptOn(p, xs, r', m', t');
      LitAvoids(x(results[n])([]), xs, ys);
      AssignedTwin(outs[n], value, p, xs, ys, o, m, t, o', m', t');
      assert PermTargets(outs, p)[..n] == PermTargets(outs[..n], p);
      assert results[n] in results && PermExpr(value, p) == value;
      DeliveredSnoc(PermTargets(outs, p), results, x', o', r', m', t');
    }
  }

  /** The callee is entered with the same values of its formals and otherwise from s'. */
  lemma EnteredTwin(params: seq<Id>, results: seq<Id>, actuals: seq<Expr>, p: Perm, zs: set<Id>, xs: set<Id>,
                    ys: set<Id>,
                    o: State, s: State, e: State, o': State, s': State) returns (e': State)
    requires |params| == |actuals| && Confined(p, zs, xs)
    requires Twin(p, ys, o, o') && Twin(p, xs, s, s')
    requires ExprsAvoid(actuals, xs, ys) && Entered(params, results, actuals, o, s, e)
    ensures SameOff(params + results, e', s') && SameOn(params + results, e', e)
    ensures Twin(Plainly(), Others(zs, params + results), e, e')
    ensures Entered(params, results, PermExprs(actuals, p), o', s', e')
  {
    var fs := params + results;
    e' := Mixed(fs, e, s');
    forall i: Id | i !in Others(zs, fs)
      ensures e'(i) == e(i)
    {
      if i !in fs { assert p.to(i) == i && s'(p.to(i)) == s(i); }
    }
    forall k | 0 <= k < |params|
      ensures e'(params[k])([]) == Eval(PermExprs(actuals, p)[k], Now(o', s'), map[])
    {
      assert fs[k] == params[k] && actuals[k] in actuals;
      EvalNow(actuals[k], p, xs, ys, o, s, o', s', map[]);
    }
  }

  /** The caller's states after the callee: symbols that are moved or differ are what they were before. */
  lemma LeftTwin(fs: seq<Id>, p: Perm, zs: set<Id>, xs: set<Id>, s: State, e: State, x: State, r: State,
                 s': State, e': State, x': State) returns (r': State)
    requires Bijective(p) && Confined(p, zs, xs) && Twin(p, xs, s, s') && SameOff(fs, e, s) && SameOff(fs, e', s')
    requires Left(fs, s, x, r) && forall i :: i in Others(zs, fs) ==> x(i) == e(i)
    requires Twin(Plainly(), Others(zs, fs), x, x') && Kept(Plainly(), Others(zs, fs), e', x')
    ensures Left(fs, s', x', r') && Twin(p, xs, r, r') && Kept(p, xs, s', r')
  {
    r' := Mixed(fs, s', x');
    forall j: Id | j in zs
      ensures r(j) == s(j) && r'(j) == s'(j)
    {
      if j !in fs { assert j in Others(zs, fs) && x'(Plainly().to(j)) == e'(Plainly().to(j)); }
    }
    forall i: Id
      ensures i in zs ==> p.to(i) in zs
    {
      if p.to(i) !in zs { assert p.from(p.to(i)) == i && p.from(p.to(p.to(i))) == p.to(i); }
    }
    forall i: Id | i !in xs
      ensures r'(p.to(i)) == r(i)
    {
      if i !in zs {
        assert p.to(i) == i;
        if i in fs { assert s'(p.to(i)) == s(i); } else { assert x'(Plainly().to(i)) == x(i); }
      }
    }
  }

  // ----- "if some" -----

  /** The state whose twin is w', with the values of s at the symbols in xs. */
  ghost function Uncarry(p: Perm, xs: set<Id>, w': State, s: State): State
  {
    (i: Id) => if i in xs then s(i) else w'(p.to(i))
  }

  /** w' is w inside the scope of the parameters. */
  ghost predicate Inside(p: Perm, xs: set<Id>, ids: seq<Id>, w: State, s': State, w': State)
  {
    Twin(p, Others(xs, ids), w, w') && Kept(p, Others(xs, ids), s', w')
  }

  lemma WitnessTwin(some: SomeCond, p: Perm, xs: set<Id>, ys: set<Id>,
                    o: State, s: State, w: State, o': State, s': State, w': State)
    requires Bijective(p) && Twin(p, ys, o, o') && Twin(p, xs, s, s') && Inside(p, xs, some.params, w, s', w')
    requires SomeAvoids(some, xs, ys) && Witnesses(some, o, s, w)
    ensures Witnesses(PermSome(some, p), o', s', w')
  {
    OffScope(p, xs, some.params, s, w, s', w');
    TrueTwin(some.f, p, Others(xs, some.params), ys, o, w, o', w');
  }

  lemma WitnessBack(some: SomeCond, p: Perm, xs: set<Id>, ys: set<Id>, o: State, s: State, o': State, s': State,
                    w': State)
    returns (w: State)
    requires Bijective(p) && Twin(p, ys, o, o') && Twin(p, xs, s, s')
    requires SomeAvoids(some, xs, ys) && Witnesses(PermSome(some, p), o', s', w')
    ensures Witnesses(some, o, s, w) && Twin(p, Others(xs, some.params), w, w')
  {
    var xs1 := Others(xs, some.params);
    w := Uncarry(p, xs1, w', s);
    TrueTwin(some.f, p, xs1, ys, o, w, o', w');
    forall i: Id | i !in some.params
      ensures w(i) == s(i)
    {
      PermIdsHas(some.params, p, i);
      if i !in xs { assert w'(p.to(i)) == s'(p.to(i)) == s(i); } else { assert i in xs1; }
    }
  }

  lemma IndexTwin(some: SomeCond, p: Perm, xs: set<Id>, ys: set<Id>, o: State, w: State, o': State, w': State)
    requires SomeAvoids(some, xs, ys) && Twin(p, ys, o, o') && Twin(p, Others(xs, some.params), w, w')
    ensures IndexOf(PermSome(some, p), o', w') == IndexOf(some, o, w)
  {
    EvalNow(some.index, p, Others(xs, some.params), ys, o, w, o', w', map[]);
  }

  lemma PickedTwin(some: SomeCond, p: Perm, xs: set<Id>, ys: set<Id>,
                   o: State, s: State, w: State, o': State, s': State, w': State)
    requires Bijective(p) && Twin(p, ys, o, o') && Twin(p, xs, s, s') && Inside(p, xs, some.params, w, s', w')
    requires SomeAvoids(some, xs, ys) && Picked(some, o, s, w)
    ensures Picked(PermSome(some, p), o', s', w')
  {
    hide Bijective, Twin, Kept, Witnesses, SomeAvoids, IndexOf;
    WitnessTwin(some, p, xs, ys, o, s, w, o', s', w');
    IndexTwin(some, p, xs, ys, o, w, o', w');
    forall z': State | Witnesses(PermSome(some, p), o', s', z')
      ensures exists z: State :: Witnesses(some, o, s, z) && IndexOf(PermSome(some, p), o', z') == IndexOf(some, o, z)
    {
      var z := WitnessBack(some, p, xs, ys, o, s, o', s', z');
      IndexTwin(some, p, xs, ys, o, z, o', z');
    }
  }

  // ----- runs -----

  /** Renaming an action renames its runs, whatever the values of symbols it does not mention. */
  lemma {:induction false} ExecTwin(a: Action, p: Perm, zs: set<Id>, xs: set<Id>, ys: set<Id>,
                                    o: State, s: State, t: State, o': State, s': State, t': State)
    requires Bijective(p) && Confined(p, zs, xs) && ActionAvoids(a, zs, xs, ys)
    requires Twin(p, ys, o, o') && Twin(p, xs, s, s') && Twin(p, xs, t, t') && Kept(p, xs, s', t')
    requires Exec(a, o, s, t)
    ensures Exec(Permute(a, p), o', s', t')
    decreases a, 1, 0
  {
    hide Assigned, Havocked, True, CondHolds, Bijective, Confined, Twin, Kept, Same, ExprAvoids, TargetAvoids, PermExpr;
    match a
    case Assume(f) => SameTwin(p, xs, s, t, s', t'); TrueTwin(f, p, xs, ys, o, s, o', s');
    case Assert(f) => SameTwin(p, xs, s, t, s', t');
    case Assign(target, rhs) => AssignedTwin(target, rhs, p, xs, ys, o, s, t, o', s', t');
    case Havoc(target) => HavockedTwin(target, p, xs, ys, o, s, t, o', s', t');
    case Sequence(es) => SeqTwin(es, p, zs, xs, ys, o, s, t, o', s', t');
    case Choice(_) => ChoiceTwin(a, p, zs, xs, ys, o, s, t, o', s', t');
    case If(_, _, _) => IfTwin(a, p, zs, xs, ys, o, s, t, o', s', t');
    case Local(_, _) => LocalTwin(a, p, zs, xs, ys, o, s, t, o', s', t');
    case BindOldsAction(inner) => ExecTwin(inner, p, zs, xs, xs, s, s, t, s', s', t');
    case While(_, _, _, _) => WhileTwin(a, p, zs, xs, ys, o, s, t, o', s', t');
    case IfSome(_, _, _) => SomeTwin(a, p, zs, xs, ys, o, s, t, o', s', t');
    case Call(_, _, _, _, _) => CallTwin(a, p, zs, xs, ys, o, s, t, o', s', t');
  }

  lemma {:induction false} ChoiceTwin(a: Action, p: Perm, zs: set<Id>, xs: set<Id>, ys: set<Id>,
                                     o: State, s: State, t: State, o': State, s': State, t': State)
    requires a.Choice?
    requires Bijective(p) && Confined(p, zs, xs) && ActionAvoids(a, zs, xs, ys)
    requires Twin(p, ys, o, o') && Twin(p, xs, s, s') && Twin(p, xs, t, t') && Kept(p, xs, s', t')
    requires Exec(a, o, s, t)
    ensures Exec(Permute(a, p), o', s', t')
    decreases a, 0, 0
  {
    hide Bijective, Confined, Twin, Kept, Permute, ActionAvoids;
    var bs := a.branches;
    var k :| 0 <= k < |bs| && Exec(bs[k], o, s, t);
    assert ActionAvoids(bs[k], zs, xs, ys) by { BranchAvoids(a, zs, xs, ys, k); }
    ExecTwin(bs[k], p, zs, xs, ys, o, s, t, o', s', t');
    assert Permute(a, p) == Choice(PermuteAll(bs, p)) by { PermuteChoice(a, p); }
    assert PermuteAll(bs, p)[k] == Permute(bs[k], p);
  }

  lemma BranchAvoids(a: Action, zs: set<Id>, xs: set<Id>, ys: set<Id>, k: nat)
    requires a.Choice? && ActionAvoids(a, zs, xs, ys) && k < |a.branches|
    ensures ActionAvoids(a.branches[k], zs, xs, ys)
  {
  }

  lemma PermuteChoice(a: Action, p: Perm)
    requires a.Choice?
    ensures Permute(a, p) == Choice(PermuteAll(a.branches, p))
  {
  }

  lemma {:induction false} IfTwin(a: Action, p: Perm, zs: set<Id>, xs: set<Id>, ys: set<Id>,
                                     o: State, s: State, t: State, o': State, s': State, t': State)
    requires a.If?
    requires Bijective(p) && Confined(p, zs, xs) && ActionAvoids(a, zs, xs, ys)
    requires Twin(p, ys, o, o') && Twin(p, xs, s, s') && Twin(p, xs, t, t') && Kept(p, xs, s', t')
    requires Exec(a, o, s, t)
    ensures Exec(Permute(a, p), o', s', t')
    decreases a, 0, 0
  {
    hide Bijective, Confined, Twin, Kept, CondHolds, PermExpr;
    TrueTwin(a.cond, p, xs, ys, o, s, o', s');
    if CondHolds(a.cond, o, s) {
      ExecTwin(a.thn, p, zs, xs, ys, o, s, t, o', s', t');
    } else {
      ExecTwin(a.els, p, zs, xs, ys, o, s, t, o', s', t');
    }
  }

  lemma {:induction false} WhileTwin(a: Action, p: Perm, zs: set<Id>, xs: set<Id>, ys: set<Id>,
                                     o: State, s: State, t: State, o': State, s': State, t': State)
    requires a.While?
    requires Bijective(p) && Confined(p, zs, xs) && ActionAvoids(a, zs, xs, ys)
    requires Twin(p, ys, o, o') && Twin(p, xs, s, s') && Twin(p, xs, t, t') && Kept(p, xs, s', t')
    requires Exec(a, o, s, t)
    ensures Exec(Permute(a, p), o', s', t')
    decreases a, 0, 0
  {
    hide Bijective, Confined, Twin, Kept, CondHolds, PermExpr, Iterates;
    var n: nat :| Iterates(a.cond, a.body, n, o, s, t);
    TrueTwin(a.cond, p, xs, ys, o, t, o', t');
    RoundsTwin(a.cond, a.body, n, p, zs, xs, ys, o, s, t, o', s', t');
  }

  lemma {:induction false} SeqTwin(es: seq<Action>, p: Perm, zs: set<Id>, xs: set<Id>, ys: set<Id>,
                                   o: State, s: State, t: State, o': State, s': State, t': State)
    requires Bijective(p) && Confined(p, zs, xs) && forall e :: e in es ==> ActionAvoids(e, zs, xs, ys)
    requires Twin(p, ys, o, o') && Twin(p, xs, s, s') && Twin(p, xs, t, t') && Kept(p, xs, s', t')
    requires ExecSeq(es, o, s, t)
    ensures ExecSeq(PermuteAll(es, p), o', s', t')
    decreases es, 0, 0
  {
    hide Exec, Bijective, Confined, Twin, Kept, Same, Permute, ActionAvoids;
    if es == [] {
      SameTwin(p, xs, s, t, s', t');
    } else {
      var n := |es| - 1;
      var m: State :| ExecSeq(es[..n], o, s, m) && Exec(es[n], o, m, t);
      var m' := CarryTwin(p, xs, m, s');
      KeptOn(p, xs, s', m', t');
      SeqTwin(es[..n], p, zs, xs, ys, o, s, m, o', s', m');
      ExecTwin(es[n], p, zs, xs, ys, o, m, t, o', m', t');
      assert PermuteAll(es, p)[..n] == PermuteAll(es[..n], p);
    }
  }

  lemma KeptOn(p: Perm, xs: set<Id>, s': State, m': State, t': State)
    requires Kept(p, xs, s', m') && Kept(p, xs, s', t')
    ensures Kept(p, xs, m', t') && Kept(p, xs, m', s')
  {
  }

  lemma {:induction false} RoundsTwin(c: Expr, body: Action, n: nat, p: Perm, zs: set<Id>, xs: set<Id>, ys: set<Id>,
                                      o: State, s: State, t: State, o': State, s': State, t': State)
    requires Bijective(p) && Confined(p, zs, xs) && ActionAvoids(body, zs, xs, ys) && ExprAvoids(c, xs, ys)
    requires Twin(p, ys, o, o') && Twin(p, xs, s, s') && Twin(p, xs, t, t') && Kept(p, xs, s', t')
    requires Iterates(c, body, n, o, s, t)
    ensures Iterates(PermExpr(c, p), Permute(body, p), n, o', s', t')
    decreases body, 2, n
  {
    hide Exec, Bijective, Confined, Twin, Kept, Same, Permute, PermExpr, ActionAvoids, CondHolds, ExprAvoids;
    if n == 0 {
      SameTwin(p, xs, s, t, s', t');
    } else {
      var m: State :| Iterates(c, body, n - 1, o, s, m) && CondHolds(c, o, m) && Exec(body, o, m, t);
      var m' := CarryTwin(p, xs, m, s');
      KeptOn(p, xs, s', m', t');
      RoundsTwin(c, body, n - 1, p, zs, xs, ys, o, s, m, o', s', m');
      TrueTwin(c, p, xs, ys, o, m, o', m');
      ExecTwin(body, p, zs, xs, ys, o, m, t, o', m', t');
    }
  }

  lemma {:induction false} LocalTwin(a: Action, p: Perm, zs: set<Id>, xs: set<Id>, ys: set<Id>,
                                     o: State, s: State, t: State, o': State, s': State, t': State)
    requires a.Local? && Bijective(p) && Confined(p, zs, xs) && ActionAvoids(a, zs, xs, ys)
    requires Twin(p, ys, o, o') && Twin(p, xs, s, s') && Twin(p, xs, t, t') && Kept(p, xs, s', t')
    requires Exec(a, o, s, t)
    ensures Exec(Permute(a, p), o', s', t')
    decreases a, 0, 0
  {
    hide Bijective, Confined, Twin, Kept, SameOff, SameOn, Others;
    var s1: State, t1: State :| SameOff(a.xs, s1, s) && SameOff(a.xs, t1, t) && Exec(a.body, o, s1, t1);
    var s1' := ScopeTwin(p, zs, xs, a.xs, s, s1, s');
    var t1' := ScopeTwin(p, zs, xs, a.xs, t, t1, t');
    KeptScope(p, xs, a.xs, s', t', s1', t1');
    OnScope(p, xs, a.xs, s, t, s', t');
    ExecTwin(a.body, p, zs, Others(xs, a.xs), ys, o, s1, t1, o', s1', t1');
  }

  lemma NoWitnessTwin(some: SomeCond, p: Perm, xs: set<Id>, ys: set<Id>, o: State, s: State, o': State, s': State)
    requires Bijective(p) && Twin(p, ys, o, o') && Twin(p, xs, s, s') && SomeAvoids(some, xs, ys)
    requires forall w: State :: !Witnesses(some, o, s, w)
    ensures forall w': State :: !Witnesses(PermSome(some, p), o', s', w')
  {
    forall w': State | Witnesses(PermSome(some, p), o', s', w')
      ensures false
    {
      var w := WitnessBack(some, p, xs, ys, o, s, o', s', w');
    }
  }

  lemma {:induction false} SomeTwin(a: Action, p: Perm, zs: set<Id>, xs: set<Id>, ys: set<Id>,
                                    o: State, s: State, t: State, o': State, s': State, t': State)
    requires a.IfSome? && Bijective(p) && Confined(p, zs, xs) && ActionAvoids(a, zs, xs, ys)
    requires Twin(p, ys, o, o') && Twin(p, xs, s, s') && Twin(p, xs, t, t') && Kept(p, xs, s', t')
    requires Exec(a, o, s, t)
    ensures Exec(Permute(a, p), o', s', t')
    decreases a, 0, 0
  {
    hide Bijective, Confined, Twin, Kept, SameOff, SameOn, Picked, Witnesses, SomeAvoids, Others;
    var some := a.some;
    if (forall w: State :: !Witnesses(some, o, s, w)) && Exec(a.els, o, s, t) {
      NoWitnessTwin(some, p, xs, ys, o, s, o', s');
      ExecTwin(a.els, p, zs, xs, ys, o, s, t, o', s', t');
    } else {
      var w: State, t1: State :| Picked(some, o, s, w) && SameOff(some.params, t1, t) && Exec(a.thn, o, w, t1);
      PickedOff(some, o, s, w);
      var w' := ScopeTwin(p, zs, xs, some.params, s, w, s');
      var t1' := ScopeTwin(p, zs, xs, some.params, t, t1, t');
      KeptScope(p, xs, some.params, s', t', w', t1');
      PickedTwin(some, p, xs, ys, o, s, w, o', s', w');
      OnScope(p, xs, some.params, s, t, s', t');
      ExecTwin(a.thn, p, zs, Others(xs, some.params), ys, o, w, t1, o', w', t1');
    }
  }

  lemma PickedOff(some: SomeCond, o: State, s: State, w: State)
    requires Picked(some, o, s, w)
    ensures SameOff(some.params, w, s)
  {
    assert Witnesses(some, o, s, w);
  }

  lemma CallRun(a: Action, o: State, s: State, e: State, x: State, r: State, t: State)
    requires a.Call? && |a.params| == |a.actuals| && |a.results| == |a.outs|
    requires Entered(a.params, a.results, a.actuals, o, s, e) && Exec(a.callee, e, e, x)
    requires Left(a.params + a.results, s, x, r) && Delivered(a.outs, a.results, x, o, r, t)
    ensures Exec(a, o, s, t)
  {
    hide Entered, Left, Delivered;
  }

  lemma {:induction false} CallTwin(a: Action, p: Perm, zs: set<Id>, xs: set<Id>, ys: set<Id>,
                                    o: State, s: State, t: State, o': State, s': State, t': State)
    requires a.Call? && Bijective(p) && Confined(p, zs, xs) && ActionAvoids(a, zs, xs, ys)
    requires Twin(p, ys, o, o') && Twin(p, xs, s, s') && Twin(p, xs, t, t') && Kept(p, xs, s', t')
    requires Exec(a, o, s, t)
    ensures Exec(Permute(a, p), o', s', t')
    decreases a, 0, 0
  {
    hide Bijective, Confined, Twin, Kept, ExprAvoids, TargetAvoids, Delivered, Entered, ExprsAvoid, SameOff, SameOn,
      Left, Others;
    var fs := a.params + a.results;
    var e: State, x: State, r: State :|
      && Entered(a.params, a.results, a.actuals, o, s, e) && Exec(a.callee, e, e, x)
      && Left(fs, s, x, r) && Delivered(a.outs, a.results, x, o, r, t);
    var e' := EnteredTwin(a.params, a.results, a.actuals, p, zs, xs, ys, o, s, e, o', s');
    var x' := CalleeTwin(a.callee, fs, zs, e, x, e');
    EnteredOff(a.params, a.results, a.actuals, o, s, e);
    var r' := LeftTwin(fs, p, zs, xs, s, e, x, r, s', e', x');
    KeptOn(p, xs, s', r', t');
    ResultsTwin(a.params, a.results, zs, x, x');
    DeliveredTwin(a.outs, a.results, p, xs, ys, x, x', o, r, t, o', r', t');
    CallRun(Permute(a, p), o', s', e', x', r', t');
  }

  lemma EnteredOff(params: seq<Id>, results: seq<Id>, actuals: seq<Expr>, o: State, s: State, e: State)
    requires |params| == |actuals| && Entered(params, results, actuals, o, s, e)
    ensures SameOff(params + results, e, s)
  {
  }

  lemma ResultsTwin(params: seq<Id>, results: seq<Id>, zs: set<Id>, x: State, x': State)
    requires Twin(Plainly(), Others(zs, params + results), x, x')
    ensures forall i :: i in results ==> x'(i) == x(i)
  {
    forall i | i in results
      ensures x'(i) == x(i)
    {
      assert i in params + results;
      assert x'(Plainly().to(i)) == x(i);
    }
  }

  /** The callee itself runs as before, from the other values of the symbols that it does not mention. */
  lemma {:induction false} CalleeTwin(callee: Action, fs: seq<Id>, zs: set<Id>, e: State, x: State, e': State)
    returns (x': State)
    requires CalleeAvoids(fs, callee, zs) && Exec(callee, e, e, x) && Twin(Plainly(), Others(zs, fs), e, e')
    ensures Twin(Plainly(), Others(zs, fs), x, x') && Kept(Plainly(), Others(zs, fs), e', x') &&
            Exec(callee, e', e', x')
    ensures forall i :: i in Others(zs, fs) ==> x(i) == e(i)
    decreases callee, 2
  {
    hide Exec, Others, Twin, Kept, ActionAvoids;
    var xs := Others(zs, fs);
    x' := CarryTwin(Plainly(), xs, x, e');
    ExecTwin(callee, Plainly(), xs, xs, xs, e, e, x, e', e', x');
    PermutePlain(callee);
    forall i | i in xs
      ensures x(i) == e(i)
    {
      ExecFrame(callee, xs, xs, xs, e, e, x, i);
    }
  }

  // ----- aborting runs -----

  lemma {:induction false} AbortsTwin(a: Action, p: Perm, zs: set<Id>, xs: set<Id>, ys: set<Id>, o: State, s: State,
                                      o': State, s': State)
    requires Bijective(p) && Confined(p, zs, xs) && ActionAvoids(a, zs, xs, ys)
    requires Twin(p, ys, o, o') && Twin(p, xs, s, s')
    requires Aborts(a, o, s)
    ensures Aborts(Permute(a, p), o', s')
    decreases a, 1
  {
    hide Exec, True, CondHolds, Bijective, Confined, Twin, Kept, Same, ExprAvoids, TargetAvoids, PermExpr;
    match a
    case Assert(f) => TrueTwin(f, p, xs, ys, o, s, o', s');
    case Sequence(es) => AbortsSeqTwin(es, p, zs, xs, ys, o, s, o', s');
    case Choice(_) => ChoiceAbortsTwin(a, p, zs, xs, ys, o, s, o', s');
    case If(_, _, _) => IfAbortsTwin(a, p, zs, xs, ys, o, s, o', s');
    case Local(_, _) => LocalAbortsTwin(a, p, zs, xs, ys, o, s, o', s');
    case BindOldsAction(inner) => AbortsTwin(inner, p, zs, xs, xs, s, s, s', s');
    case While(_, _, _, _) => WhileAbortsTwin(a, p, zs, xs, ys, o, s, o', s');
    case IfSome(_, _, _) => SomeAbortsTwin(a, p, zs, xs, ys, o, s, o', s');
    case Call(_, _, _, _, _) => CallAbortsTwin(a, p, zs, xs, ys, o, s, o', s');
  }

  lemma {:induction false} ChoiceAbortsTwin(a: Action, p: Perm, zs: set<Id>, xs: set<Id>, ys: set<Id>, o: State,
                                            s: State, o': State, s': State)
    requires a.Choice?
    requires Bijective(p) && Confined(p, zs, xs) && ActionAvoids(a, zs, xs, ys)
    requires Twin(p, ys, o, o') && Twin(p, xs, s, s')
    requires Aborts(a, o, s)
    ensures Aborts(Permute(a, p), o', s')
    decreases a, 0
  {
    hide Bijective, Confined, Twin, Kept, Permute, ActionAvoids;
    var bs := a.branches;
    var k :| 0 <= k < |bs| && Aborts(bs[k], o, s);
    assert ActionAvoids(bs[k], zs, xs, ys) by { BranchAvoids(a, zs, xs, ys, k); }
    AbortsTwin(bs[k], p, zs, xs, ys, o, s, o', s');
    assert Permute(a, p) == Choice(PermuteAll(bs, p)) by { PermuteChoice(a, p); }
    assert PermuteAll(bs, p)[k] == Permute(bs[k], p);
  }

  lemma {:induction false} IfAbortsTwin(a: Action, p: Perm, zs: set<Id>, xs: set<Id>, ys: set<Id>, o: State, s: State,
                                        o': State, s': State)
    requires a.If?
    requires Bijective(p) && Confined(p, zs, xs) && ActionAvoids(a, zs, xs, ys)
    requires Twin(p, ys, o, o') && Twin(p, xs, s, s')
    requires Aborts(a, o, s)
    ensures Aborts(Permute(a, p), o', s')
    decreases a, 0
  {
    hide Bijective, Confined, Twin, Kept, CondHolds, PermExpr;
    TrueTwin(a.cond, p, xs, ys, o, s, o', s');
    if CondHolds(a.cond, o, s) {
      AbortsTwin(a.thn, p, zs, xs, ys, o, s, o', s');
    } else {
      AbortsTwin(a.els, p, zs, xs, ys, o, s, o', s');
    }
  }

  lemma {:induction false} LocalAbortsTwin(a: Action, p: Perm, zs: set<Id>, xs: set<Id>, ys: set<Id>,
                                           o: State, s: State, o': State, s': State)
    requires a.Local?
    requires Bijective(p) && Confined(p, zs, xs) && ActionAvoids(a, zs, xs, ys)
    requires Twin(p, ys, o, o') && Twin(p, xs, s, s')
    requires Aborts(a, o, s)
    ensures Aborts(Permute(a, p), o', s')
    decreases a, 0
  {
    hide Bijective, Confined, Twin, Kept, SameOff, Others;
    var s1: State :| SameOff(a.xs, s1, s) && Aborts(a.body, o, s1);
    var s1' := ScopeTwin(p, zs, xs, a.xs, s, s1, s');
    AbortsTwin(a.body, p, zs, Others(xs, a.xs), ys, o, s1, o', s1');
  }

  lemma {:induction false} WhileAbortsTwin(a: Action, p: Perm, zs: set<Id>, xs: set<Id>, ys: set<Id>, o: State,
                                           s: State, o': State, s': State)
    requires a.While?
    requires Bijective(p) && Confined(p, zs, xs) && ActionAvoids(a, zs, xs, ys)
    requires Twin(p, ys, o, o') && Twin(p, xs, s, s')
    requires Aborts(a, o, s)
    ensures Aborts(Permute(a, p), o', s')
    decreases a, 0
  {
    hide Bijective, Confined, Twin, Kept, CondHolds, PermExpr, Iterates, ExprAvoids;
    var n: nat, m: State :| Iterates(a.cond, a.body, n, o, s, m) && CondHolds(a.cond, o, m) && Aborts(a.body, o, m);
    var m' := CarryTwin(p, xs, m, s');
    RoundsTwin(a.cond, a.body, n, p, zs, xs, ys, o, s, m, o', s', m');
    TrueTwin(a.cond, p, xs, ys, o, m, o', m');
    AbortsTwin(a.body, p, zs, xs, ys, o, m, o', m');
  }

  lemma {:induction false} AbortsSeqTwin(es: seq<Action>, p: Perm, zs: set<Id>, xs: set<Id>, ys: set<Id>, o: State,
                                         s: State, o': State, s': State)
    requires Bijective(p) && Confined(p, zs, xs) && forall e :: e in es ==> ActionAvoids(e, zs, xs, ys)
    requires Twin(p, ys, o, o') && Twin(p, xs, s, s')
    requires AbortsSeq(es, o, s)
    ensures AbortsSeq(PermuteAll(es, p), o', s')
    decreases es, 0
  {
    hide Exec, Aborts, Bijective, Confined, Twin, Kept, Permute, ActionAvoids;
    var n := |es| - 1;
    assert PermuteAll(es, p)[..n] == PermuteAll(es[..n], p);
    if AbortsSeq(es[..n], o, s) {
      AbortsSeqTwin(es[..n], p, zs, xs, ys, o, s, o', s');
    } else {
      var m: State :| ExecSeq(es[..n], o, s, m) && Aborts(es[n], o, m);
      var m' := CarryTwin(p, xs, m, s');
      SeqTwin(es[..n], p, zs, xs, ys, o, s, m, o', s', m');
      AbortsTwin(es[n], p, zs, xs, ys, o, m, o', m');
    }
  }

  lemma {:induction false} SomeAbortsTwin(a: Action, p: Perm, zs: set<Id>, xs: set<Id>, ys: set<Id>,
                                          o: State, s: State, o': State, s': State)
    requires a.IfSome? && Bijective(p) && Confined(p, zs, xs) && ActionAvoids(a, zs, xs, ys)
    requires Twin(p, ys, o, o') && Twin(p, xs, s, s')
    requires Aborts(a, o, s)
    ensures Aborts(Permute(a, p), o', s')
    decreases a, 0
  {
    hide Bijective, Confined, Twin, Kept, SameOff, SameOn, Picked, Witnesses, SomeAvoids, Others;
    var some := a.some;
    if (forall w: State :: !Witnesses(some, o, s, w)) && Aborts(a.els, o, s) {
      NoWitnessTwin(some, p, xs, ys, o, s, o', s');
      AbortsTwin(a.els, p, zs, xs, ys, o, s, o', s');
    } else {
      var w: State :| Picked(some, o, s, w) && Aborts(a.thn, o, w);
      PickedOff(some, o, s, w);
      var w' := ScopeTwin(p, zs, xs, some.params, s, w, s');
      PickedTwin(some, p, xs, ys, o, s, w, o', s', w');
      AbortsTwin(a.thn, p, zs, Others(xs, some.params), ys, o, w, o', w');
    }
  }

  lemma {:induction false} CallAbortsTwin(a: Action, p: Perm, zs: set<Id>, xs: set<Id>, ys: set<Id>,
                                          o: State, s: State, o': State, s': State)
    requires a.Call? && Bijective(p) && Confined(p, zs, xs) && ActionAvoids(a, zs, xs, ys)
    requires Twin(p, ys, o, o') && Twin(p, xs, s, s')
    requires Aborts(a, o, s)
    ensures Aborts(Permute(a, p), o', s')
    decreases a, 0
  {
    hide Bijective, Confined, Twin, Kept, SameOff, SameOn, ExprAvoids, TargetAvoids, Entered, ExprsAvoid, Others;
    var fs := a.params + a.results;
    var e: State :| Entered(a.params, a.results, a.actuals, o, s, e) && Aborts(a.callee, e, e);
    var e' := EnteredTwin(a.params, a.results, a.actuals, p, zs, xs, ys, o, s, e, o', s');
    PlainConfined(Others(zs, fs));
    AbortsTwin(a.callee, Plainly(), Others(zs, fs), Others(zs, fs), Others(zs, fs), e, e, e', e');
    PermutePlain(a.callee);
  }

  lemma PlainConfined(xs: set<Id>)
    ensures Bijective(Plainly()) && Confined(Plainly(), xs, xs)
  {
  }

  // ----- undoing a renaming -----

  lemma {:induction false} PermExprBack(e: Expr, p: Perm)
    requires Bijective(p)
    ensures PermExpr(PermExpr(e, p), Back(p)) == e
    decreases e, 1
  {
    match e
    case Var(_) =>
    case Lit(_) =>
    case App(f, args) => PermExprsBack(args, p);
    case Not(a) => PermExprBack(a, p);
    case Op(_, l, r) => PermExprBack(l, p); PermExprBack(r, p);
    case Ite(c, t, f) => PermExprBack(c, p); PermExprBack(t, p); PermExprBack(f, p);
    case Quant(_, _, b) => PermExprBack(b, p);
  }

  lemma {:induction false} PermExprsBack(es: seq<Expr>, p: Perm)
    requires Bijective(p)
    ensures PermExprs(PermExprs(es, p), Back(p)) == es
    decreases es, 0
  {
    var r := PermExprs(PermExprs(es, p), Back(p));
    forall k | 0 <= k < |es|
      ensures r[k] == es[k]
    {
      PermExprBack(es[k], p);
    }
  }

  lemma PermIdsBack(ids: seq<Id>, p: Perm)
    requires Bijective(p)
    ensures PermIds(PermIds(ids, p), Back(p)) == ids
  {
  }

  lemma PermTargetBack(target: Target, p: Perm)
    requires Bijective(p)
    ensures PermTarget(PermTarget(target, p), Back(p)) == target
  {
    PermExprsBack(target.args, p);
  }

  lemma PermTargetsBack(outs: seq<Target>, p: Perm)
    requires Bijective(p)
    ensures PermTargets(PermTargets(outs, p), Back(p)) == outs
  {
    var r := PermTargets(PermTargets(outs, p), Back(p));
    forall k | 0 <= k < |outs|
      ensures r[k] == outs[k]
    {
      PermTargetBack(outs[k], p);
    }
  }

  lemma {:induction false} PermuteBack(a: Action, p: Perm)
    requires Bijective(p)
    ensures Permute(Permute(a, p), Back(p)) == a
    decreases a, 1
  {
    hide Bijective, PermExpr, PermTarget, PermExprs, PermTargets, PermIds;
    match a
    case Assume(f) => PermExprBack(f, p);
    case Assert(f) => PermExprBack(f, p);
    case Assign(target, rhs) => PermTargetBack(target, p); PermExprBack(rhs, p);
    case Havoc(target) => PermTargetBack(target, p);
    case Sequence(es) => PermuteAllBack(es, p);
    case Choice(bs) => PermuteAllBack(bs, p);
    case If(c, thn, els) => PermExprBack(c, p); PermuteBack(thn, p); PermuteBack(els, p);
    case Local(ids, body) => PermIdsBack(ids, p); PermuteBack(body, p);
    case BindOldsAction(inner) => PermuteBack(inner, p);
    case While(c, invs, rank, body) =>
      PermExprBack(c, p);
      PermExprsBack(invs, p);
      if rank.Some? { PermExprBack(rank.value, p); }
      PermuteBack(body, p);
    case IfSome(some, thn, els) =>
      PermIdsBack(some.params, p);
      PermExprBack(some.f, p);
      PermExprBack(some.index, p);
      PermuteBack(thn, p);
      PermuteBack(els, p);
    case Call(_, _, _, actuals, outs) =>
      PermExprsBack(actuals, p);
      PermTargetsBack(outs, p);
  }

  lemma {:induction false} PermuteAllBack(es: seq<Action>, p: Perm)
    requires Bijective(p)
    ensures PermuteAll(PermuteAll(es, p), Back(p)) == es
    decreases es, 0
  {
    var r := PermuteAll(PermuteAll(es, p), Back(p));
    forall k | 0 <= k < |es|
      ensures r[k] == es[k]
    {
      PermuteBack(es[k], p);
    }
  }

  // ----- the permutation that moves nothing -----

  lemma {:induction false} PermExprPlain(e: Expr)
    ensures PermExpr(e, Plainly()) == e
    decreases e, 1
  {
    match e
    case Var(_) =>
    case Lit(_) =>
    case App(f, args) => PermExprsPlain(args);
    case Not(a) => PermExprPlain(a);
    case Op(_, l, r) => PermExprPlain(l); PermExprPlain(r);
    case Ite(c, t, f) => PermExprPlain(c); PermExprPlain(t); PermExprPlain(f);
    case Quant(_, _, b) => PermExprPlain(b);
  }

  lemma {:induction false} PermExprsPlain(es: seq<Expr>)
    ensures PermExprs(es, Plainly()) == es
    decreases es, 0
  {
    forall k | 0 <= k < |es|
      ensures PermExprs(es, Plainly())[k] == es[k]
    {
      PermExprPlain(es[k]);
    }
  }

  lemma PermIdsPlain(ids: seq<Id>)
    ensures PermIds(ids, Plainly()) == ids
  {
  }

  lemma PermTargetPlain(target: Target)
    ensures PermTarget(target, Plainly()) == target
  {
    PermExprsPlain(target.args);
  }

  lemma PermTargetsPlain(outs: seq<Target>)
    ensures PermTargets(outs, Plainly()) == outs
  {
    forall k | 0 <= k < |outs|
      ensures PermTargets(outs, Plainly())[k] == outs[k]
    {
      PermTargetPlain(outs[k]);
    }
  }

  lemma {:induction false} PermutePlain(a: Action)
    ensures Permute(a, Plainly()) == a
    decreases a, 1
  {
    hide Plainly, PermExpr, PermTarget;
    match a
    case Assume(f) => PermExprPlain(f);
    case Assert(f) => PermExprPlain(f);
    case Assign(target, rhs) => PermTargetPlain(target); PermExprPlain(rhs);
    case Havoc(target) => PermTargetPlain(target);
    case Sequence(es) => PermuteAllPlain(es);
    case Choice(bs) => PermuteAllPlain(bs);
    case If(c, thn, els) => PermExprPlain(c); PermutePlain(thn); PermutePlain(els);
    case Local(ids, body) => PermIdsPlain(ids); PermutePlain(body);
    case BindOldsAction(inner) => PermutePlain(inner);
    case While(c, invs, rank, body) =>
      PermExprPlain(c);
      PermExprsPlain(invs);
      if rank.Some? { PermExprPlain(rank.value); }
      PermutePlain(body);
    case IfSome(some, thn, els) =>
      PermIdsPlain(some.params);
      PermExprPlain(some.f);
      PermExprPlain(some.index);
      PermutePlain(thn);
      PermutePlain(els);
    case Call(_, _, _, actuals, outs) =>
      PermExprsPlain(actuals);
      PermTargetsPlain(outs);
  }

  lemma {:induction false} PermuteAllPlain(es: seq<Action>)
    ensures PermuteAll(es, Plainly()) == es
    decreases es, 0
  {
    hide Plainly, Permute;
    forall k | 0 <= k < |es|
      ensures PermuteAll(es, Plainly())[k] == es[k]
    {
      PermutePlain(es[k]);
    }
  }

  lemma {:induction false} AvoidsNothing(a: Action)
    ensures ActionAvoids(a, {}, {}, {})
    decreases a
  {
    match a
    case Sequence(es) => forall e | e in es ensures ActionAvoids(e, {}, {}, {}) { AvoidsNothing(e); }
    case Choice(bs) => forall b | b in bs ensures ActionAvoids(b, {}, {}, {}) { AvoidsNothing(b); }
    case If(_, thn, els) => AvoidsNothing(thn); AvoidsNothing(els);
    case Local(ids, body) => AvoidsNothing(body); assert Others({}, ids) == {};
    case BindOldsAction(inner) => AvoidsNothing(inner);
    case While(_, _, _, body) => AvoidsNothing(body);
    case IfSome(some, thn, els) => AvoidsNothing(thn); AvoidsNothing(els); assert Others({}, some.params) == {};
    case Call(params, results, callee, _, _) => AvoidsNothing(callee); assert Others({}, params + results) == {};
    case _ =>
  }

  /** Runs depend on the values of states only. */
  lemma ExecSame(a: Action, o: State, s: State, t: State, o': State, s': State, t': State)
    requires Exec(a, o, s, t) && Same(o, o') && Same(s, s') && Same(t, t')
    ensures Exec(a, o', s', t')
  {
    hide Exec;
    AvoidsNothing(a);
    ExecTwin(a, Plainly(), {}, {}, {}, o, s, t, o', s', t');
    PermutePlain(a);
  }

  lemma AbortsSame(a: Action, o: State, s: State, o': State, s': State)
    requires Aborts(a, o, s) && Same(o, o') && Same(s, s')
    ensures Aborts(a, o', s')
  {
    hide Aborts;
    AvoidsNothing(a);
    AbortsTwin(a, Plainly(), {}, {}, {}, o, s, o', s');
    PermutePlain(a);
  }

  lemma SeqOne(a: Action, o: State, s: State, t: State)
    ensures ExecSeq([a], o, s, t) <==> Exec(a, o, s, t)
    ensures AbortsSeq([a], o, s) <==> Aborts(a, o, s)
  {
    hide Exec, Aborts;
    SeqLast([a], [], a, o, s, t);
    assert [] + [a] == [a];
    assert ExecSeq([], o, s, s) && !AbortsSeq([], o, s);
    forall m: State | ExecSeq([], o, s, m)
      ensures Exec(a, o, m, t) ==> Exec(a, o, s, t)
      ensures Aborts(a, o, m) ==> Aborts(a, o, s)
    {
      if Exec(a, o, m, t) { ExecSame(a, o, m, t, o, s, t); }
      if Aborts(a, o, m) { AbortsSame(a, o, m, o, s); }
    }
  }

  lemma PairIs(a: Action, b: Action, o: State, s: State, t: State)
    ensures Exec(Sequence([a, b]), o, s, t) <==> exists m: State :: Exec(a, o, s, m) && Exec(b, o, m, t)
    ensures Aborts(Sequence([a, b]), o, s) <==>
            Aborts(a, o, s) || exists m: State :: Exec(a, o, s, m) && Aborts(b, o, m)
  {
    hide Exec, Aborts, ExecSeq, AbortsSeq;
    SequenceIs([a, b], o, s, t);
    SeqLast([a, b], [a], b, o, s, t);
    forall m: State
      ensures ExecSeq([a], o, s, m) <==> Exec(a, o, s, m)
    {
      SeqOne(a, o, s, m);
    }
    SeqOne(a, o, s, s);
  }

  // ----- what a run leaves unchanged -----

  /** A run changes no symbol that the action does not mention outside its scopes. */
  lemma {:induction false} ExecFrame(a: Action, zs: set<Id>, xs: set<Id>, ys: set<Id>, o: State, s: State, t: State,
                                     i: Id)
    requires ActionAvoids(a, zs, xs, ys) && xs <= zs && i in xs && Exec(a, o, s, t)
    ensures t(i) == s(i)
    decreases a, 1, 0
  {
    hide True, CondHolds, ExprAvoids, Picked, Entered;
    match a
    case Assume(f) =>
    case Assert(f) =>
    case Assign(target, rhs) =>
    case Havoc(target) =>
    case Sequence(es) => SeqFrame(es, zs, xs, ys, o, s, t, i);
    case Choice(bs) =>
      var k :| 0 <= k < |bs| && Exec(bs[k], o, s, t);
      ExecFrame(bs[k], zs, xs, ys, o, s, t, i);
    case If(c, thn, els) =>
      if CondHolds(c, o, s) { ExecFrame(thn, zs, xs, ys, o, s, t, i); } else { ExecFrame(els, zs, xs, ys, o, s, t, i); }
    case Local(ids, body) =>
      var s1: State, t1: State :| SameOff(ids, s1, s) && SameOff(ids, t1, t) && Exec(body, o, s1, t1);
      if i !in ids { ExecFrame(body, zs, Others(xs, ids), ys, o, s1, t1, i); }
    case BindOldsAction(inner) => ExecFrame(inner, zs, xs, xs, s, s, t, i);
    case While(c, _, _, body) =>
      var n: nat :| Iterates(c, body, n, o, s, t);
      RoundsFrame(c, body, n, zs, xs, ys, o, s, t, i);
    case IfSome(_, _, _) => SomeFrame(a, zs, xs, ys, o, s, t, i);
    case Call(_, _, _, _, _) => CallFrame(a, zs, xs, ys, o, s, t, i);
  }

  lemma {:induction false} SeqFrame(es: seq<Action>, zs: set<Id>, xs: set<Id>, ys: set<Id>,
                                    o: State, s: State, t: State, i: Id)
    requires (forall e :: e in es ==> ActionAvoids(e, zs, xs, ys)) && xs <= zs && i in xs && ExecSeq(es, o, s, t)
    ensures t(i) == s(i)
    decreases es, 0, 0
  {
    hide Exec, ActionAvoids;
    if es != [] {
      var n := |es| - 1;
      var m: State :| ExecSeq(es[..n], o, s, m) && Exec(es[n], o, m, t);
      SeqFrame(es[..n], zs, xs, ys, o, s, m, i);
      ExecFrame(es[n], zs, xs, ys, o, m, t, i);
    }
  }

  lemma {:induction false} RoundsFrame(c: Expr, body: Action, n: nat, zs: set<Id>, xs: set<Id>, ys: set<Id>,
                                       o: State, s: State, t: State, i: Id)
    requires ActionAvoids(body, zs, xs, ys) && xs <= zs && i in xs && Iterates(c, body, n, o, s, t)
    ensures t(i) == s(i)
    decreases body, 2, n
  {
    hide Exec, ActionAvoids;
    if n > 0 {
      var m: State :| Iterates(c, body, n - 1, o, s, m) && CondHolds(c, o, m) && Exec(body, o, m, t);
      RoundsFrame(c, body, n - 1, zs, xs, ys, o, s, m, i);
      ExecFrame(body, zs, xs, ys, o, m, t, i);
    }
  }

  lemma {:induction false} SomeFrame(a: Action, zs: set<Id>, xs: set<Id>, ys: set<Id>, o: State, s: State, t: State,
                                     i: Id)
    requires a.IfSome? && ActionAvoids(a, zs, xs, ys) && xs <= zs && i in xs && Exec(a, o, s, t)
    ensures t(i) == s(i)
    decreases a, 0, 0
  {
    hide SomeAvoids, Picked;
    var some := a.some;
    if (forall w: State :: !Witnesses(some, o, s, w)) && Exec(a.els, o, s, t) {
      ExecFrame(a.els, zs, xs, ys, o, s, t, i);
    } else {
      var w: State, t1: State :| Picked(some, o, s, w) && SameOff(some.params, t1, t) && Exec(a.thn, o, w, t1);
      PickedOff(some, o, s, w);
      if i !in some.params { ExecFrame(a.thn, zs, Others(xs, some.params), ys, o, w, t1, i); }
    }
  }

  lemma {:induction false} DeliveredFrame(outs: seq<Target>, results: seq<Id>, xs: set<Id>,
                                          x: State, o: State, r: State, t: State, i: Id)
    requires |outs| == |results| && i in xs && Delivered(outs, results, x, o, r, t)
    requires forall k :: 0 <= k < |outs| ==> outs[k].x !in xs
    ensures t(i) == r(i)
  {
    if outs != [] {
      var n := |outs| - 1;
      var m := DeliveredLast(outs, results, x, o, r, t);
      DeliveredFrame(outs[..n], results[..n], xs, x, o, r, m, i);
    }
  }

  lemma {:induction false} CallFrame(a: Action, zs: set<Id>, xs: set<Id>, ys: set<Id>, o: State, s: State, t: State,
                                     i: Id)
    requires a.Call? && ActionAvoids(a, zs, xs, ys) && xs <= zs && i in xs && Exec(a, o, s, t)
    ensures t(i) == s(i)
    decreases a, 0, 0
  {
    hide Delivered, ExprsAvoid;
    var fs := a.params + a.results;
    var e: State, x: State, r: State :|
      && Entered(a.params, a.results, a.actuals, o, s, e) && Exec(a.callee, e, e, x)
      && Left(fs, s, x, r) && Delivered(a.outs, a.results, x, o, r, t);
    if i !in fs { ExecFrame(a.callee, Others(zs, fs), Others(zs, fs), Others(zs, fs), e, e, x, i); }
    DeliveredFrame(a.outs, a.results, xs, x, o, r, t, i);
  }

  // ----- symbols of a renamed action -----

  function PermSet(xs: set<Id>, p: Perm): set<Id>
  {
    set i | i in xs :: p.to(i)
  }

  lemma PermSetHas(xs: set<Id>, p: Perm, i: Id)
    requires Bijective(p)
    ensures p.to(i) in PermSet(xs, p) <==> i in xs
  {
    if p.to(i) in PermSet(xs, p) {
      var j :| j in xs && p.to(j) == p.to(i);
      assert p.from(p.to(j)) == j;
    }
  }

  lemma {:induction false} PermSyms(e: Expr, p: Perm)
    ensures forall y :: y in Syms(PermExpr(e, p)) ==> exists x :: x in Syms(e) && y == PermSym(x, p)
    decreases e, 1
  {
    match e
    case Var(_) =>
    case Lit(_) =>
    case App(f, args) => PermSymsAll(args, p); assert f in Syms(e);
    case Not(a) => PermSyms(a, p);
    case Op(_, l, r) => PermSyms(l, p); PermSyms(r, p);
    case Ite(c, t, f) => PermSyms(c, p); PermSyms(t, p); PermSyms(f, p);
    case Quant(_, _, b) => PermSyms(b, p);
  }

  lemma {:induction false} PermSymsAll(es: seq<Expr>, p: Perm)
    ensures forall y :: y in SymsAll(PermExprs(es, p)) ==> exists x :: x in SymsAll(es) && y == PermSym(x, p)
    decreases es, 0
  {
    if es != [] {
      var n := |es| - 1;
      PermSymsAll(es[..n], p);
      PermSyms(es[n], p);
      var r := PermExprs(es, p);
      assert r[..n] == PermExprs(es[..n], p) && r[n] == PermExpr(es[n], p);
    }
  }

  lemma PermExprAvoids(e: Expr, p: Perm, xs: set<Id>, ys: set<Id>)
    requires Bijective(p) && ExprAvoids(e, xs, ys)
    ensures ExprAvoids(PermExpr(e, p), PermSet(xs, p), PermSet(ys, p))
  {
    PermSyms(e, p);
    forall y | y in Syms(PermExpr(e, p))
      ensures if y.kind.Old? then y.id !in PermSet(ys, p) else y.id !in PermSet(xs, p)
    {
      var x :| x in Syms(e) && y == PermSym(x, p);
      PermSetHas(xs, p, x.id);
      PermSetHas(ys, p, x.id);
    }
  }

  lemma PermExprsAvoid(es: seq<Expr>, p: Perm, xs: set<Id>, ys: set<Id>)
    requires Bijective(p) && ExprsAvoid(es, xs, ys)
    ensures ExprsAvoid(PermExprs(es, p), PermSet(xs, p), PermSet(ys, p))
  {
    hide ExprAvoids;
    forall e' | e' in PermExprs(es, p)
      ensures ExprAvoids(e', PermSet(xs, p), PermSet(ys, p))
    {
      var k :| 0 <= k < |es| && PermExprs(es, p)[k] == e';
      assert es[k] in es;
      PermExprAvoids(es[k], p, xs, ys);
    }
  }

  lemma PermTargetAvoids(target: Target, p: Perm, xs: set<Id>, ys: set<Id>)
    requires Bijective(p) && TargetAvoids(target, xs, ys)
    ensures TargetAvoids(PermTarget(target, p), PermSet(xs, p), PermSet(ys, p))
  {
    PermSetHas(xs, p, target.x);
    PermExprsAvoid(target.args, p, xs, ys);
  }

  lemma PermOthers(xs: set<Id>, ids: seq<Id>, p: Perm)
    requires Bijective(p)
    ensures PermSet(Others(xs, ids), p) == Others(PermSet(xs, p), PermIds(ids, p))
  {
    forall j: Id
      ensures j in PermSet(Others(xs, ids), p) <==> j in Others(PermSet(xs, p), PermIds(ids, p))
    {
      var i := p.from(j);
      assert p.to(i) == j;
      PermSetHas(Others(xs, ids), p, i);
      PermSetHas(xs, p, i);
      PermIdsHas(ids, p, i);
    }
  }

  lemma PermSomeAvoids(some: SomeCond, p: Perm, xs: set<Id>, ys: set<Id>)
    requires Bijective(p) && SomeAvoids(some, xs, ys)
    ensures SomeAvoids(PermSome(some, p), PermSet(xs, p), PermSet(ys, p))
  {
    PermOthers(xs, some.params, p);
    PermExprAvoids(some.f, p, Others(xs, some.params), ys);
    PermExprAvoids(some.index, p, Others(xs, some.params), ys);
  }

  lemma {:induction false} PermuteAvoids(a: Action, p: Perm, zs: set<Id>, xs: set<Id>, ys: set<Id>)
    requires Bijective(p) && ActionAvoids(a, zs, xs, ys)
    ensures ActionAvoids(Permute(a, p), zs, PermSet(xs, p), PermSet(ys, p))
    decreases a, 1
  {
    hide Bijective, PermSet, PermExpr, PermTarget, ExprAvoids, TargetAvoids, SomeAvoids, PermSome, PermIds, Others;
    match a
    case Assume(f) => PermExprAvoids(f, p, xs, ys);
    case Assert(f) => PermExprAvoids(f, p, xs, ys);
    case Assign(target, rhs) => PermTargetAvoids(target, p, xs, ys); PermExprAvoids(rhs, p, xs, ys);
    case Havoc(target) => PermTargetAvoids(target, p, xs, ys);
    case Sequence(es) => PermuteAllAvoid(es, p, zs, xs, ys);
    case Choice(bs) => PermuteAllAvoid(bs, p, zs, xs, ys);
    case If(c, thn, els) =>
      PermExprAvoids(c, p, xs, ys); PermuteAvoids(thn, p, zs, xs, ys); PermuteAvoids(els, p, zs, xs, ys);
    case Local(ids, body) => PermuteAvoids(body, p, zs, Others(xs, ids), ys); PermOthers(xs, ids, p);
    case BindOldsAction(inner) => PermuteAvoids(inner, p, zs, xs, xs);
    case While(c, _, _, body) => PermExprAvoids(c, p, xs, ys); PermuteAvoids(body, p, zs, xs, ys);
    case IfSome(some, thn, els) => PermSomeActionAvoids(a, p, zs, xs, ys);
    case Call(_, _, callee, actuals, outs) =>
      PermExprsAvoid(actuals, p, xs, ys);
      forall k | 0 <= k < |outs|
        ensures TargetAvoids(PermTargets(outs, p)[k], PermSet(xs, p), PermSet(ys, p))
      {
        PermTargetAvoids(outs[k], p, xs, ys);
      }
  }

  lemma {:induction false} PermSomeActionAvoids(a: Action, p: Perm, zs: set<Id>, xs: set<Id>, ys: set<Id>)
    requires Bijective(p) && a.IfSome? && ActionAvoids(a, zs, xs, ys)
    ensures ActionAvoids(Permute(a, p), zs, PermSet(xs, p), PermSet(ys, p))
    decreases a, 0
  {
    hide Bijective, PermSet, SomeAvoids, PermIds, Others, PermExpr;
    PermSomeAvoids(a.some, p, xs, ys);
    PermuteAvoids(a.thn, p, zs, Others(xs, a.some.params), ys);
    PermOthers(xs, a.some.params, p);
    PermuteAvoids(a.els, p, zs, xs, ys);
  }

  lemma {:induction false} PermuteAllAvoid(es: seq<Action>, p: Perm, zs: set<Id>, xs: set<Id>, ys: set<Id>)
    requires Bijective(p) && forall e :: e in es ==> ActionAvoids(e, zs, xs, ys)
    ensures forall e :: e in PermuteAll(es, p) ==> ActionAvoids(e, zs, PermSet(xs, p), PermSet(ys, p))
    decreases es, 0
  {
    hide Bijective, PermSet, Permute, ActionAvoids;
    forall e' | e' in PermuteAll(es, p)
      ensures ActionAvoids(e', zs, PermSet(xs, p), PermSet(ys, p))
    {
      var k :| 0 <= k < |es| && PermuteAll(es, p)[k] == e';
      assert es[k] in es;
      PermuteAvoids(es[k], p, zs, xs, ys);
    }
  }

  // ----- the converse -----

  /** A run of the renamed action comes from a run of the action. */
  lemma ExecUntwin(a: Action, p: Perm, zs: set<Id>, xs: set<Id>, ys: set<Id>,
                   o: State, s: State, t: State, o': State, s': State, t': State)
    requires Bijective(p) && Confined(p, zs, xs) && ActionAvoids(a, zs, xs, ys)
    requires Twin(p, ys, o, o') && Twin(p, xs, s, s') && Twin(p, xs, t, t')
    requires forall i :: i in xs ==> t(i) == s(i)
    requires Exec(Permute(a, p), o', s', t')
    ensures Exec(a, o, s, t)
  {
    hide Exec, Confined, ActionAvoids;
    PermuteAvoids(a, p, zs, xs, ys);
    PermuteBack(a, p);
    TwinBack(p, ys, o, o');
    TwinBack(p, xs, s, s');
    TwinBack(p, xs, t, t');
    ConfinedBack(p, zs, xs);
    ExecTwin(Permute(a, p), Back(p), zs, PermSet(xs, p), PermSet(ys, p), o', s', t', o, s, t);
  }

  lemma AbortsUntwin(a: Action, p: Perm, zs: set<Id>, xs: set<Id>, ys: set<Id>, o: State, s: State, o': State,
                     s': State)
    requires Bijective(p) && Confined(p, zs, xs) && ActionAvoids(a, zs, xs, ys)
    requires Twin(p, ys, o, o') && Twin(p, xs, s, s')
    requires Aborts(Permute(a, p), o', s')
    ensures Aborts(a, o, s)
  {
    hide Aborts, Confined, ActionAvoids;
    PermuteAvoids(a, p, zs, xs, ys);
    PermuteBack(a, p);
    TwinBack(p, ys, o, o');
    TwinBack(p, xs, s, s');
    ConfinedBack(p, zs, xs);
    AbortsTwin(Permute(a, p), Back(p), zs, PermSet(xs, p), PermSet(ys, p), o', s', o, s);
  }

  lemma ConfinedBack(p: Perm, zs: set<Id>, xs: set<Id>)
    requires Bijective(p) && Confined(p, zs, xs)
    ensures Confined(Back(p), zs, PermSet(xs, p))
  {
    forall j: Id | j !in zs
      ensures p.from(j) == j
    {
      assert p.to(j) == j;
    }
    forall j | j in PermSet(xs, p)
      ensures j in zs
    {
      var i :| i in xs && p.to(i) == j;
      assert p.from(p.to(i)) == i && (j !in zs ==> p.to(j) == j && p.from(p.to(j)) == j);
    }
  }

  lemma TwinBack(p: Perm, xs: set<Id>, s: State, s': State)
    requires Bijective(p) && Twin(p, xs, s, s')
    ensures Twin(Back(p), PermSet(xs, p), s', s)
  {
    forall j: Id | j !in PermSet(xs, p)
      ensures s(p.from(j)) == s'(j)
    {
      PermSetHas(xs, p, p.from(j));
    }
  }
}
