/**
 Actions and what running them means: which states an action can lead to, and from which states some
 run of it reaches a false assertion.  Every run has two states besides the final one: the present
 state, and the state at the entry of the enclosing call, in which old_ symbols are read.
 */
module Actions {
  import opened Options
  import opened Names
  import opened Logic
  import opened ClauseOps
  import opened Updates
  import opened Hiding
  import opened Substitution

  /** The left-hand side of an assignment: a symbol at the given index expressions. */
  datatype Target = Target(x: Id, args: seq<Expr>)

  datatype Optimum = Any | Minimal | Maximal

  /** The condition of an "if some": parameters, a formula about them, and an index to optimize. */
  datatype SomeCond = SomeCond(params: seq<Id>, f: Expr, optimum: Optimum, index: Expr)

  datatype Action =
    | Assume(f: Expr)
    | Assert(f: Expr)
    | Assign(target: Target, rhs: Expr)
    | Havoc(target: Target)
    | Sequence(elems: seq<Action>)
    | Choice(branches: seq<Action>)
    | If(cond: Expr, thn: Action, els: Action)
    | Local(xs: seq<Id>, body: Action)
    | BindOldsAction(inner: Action)
    | While(cond: Expr, invariants: seq<Expr>, rank: Option<Expr>, body: Action)
    | IfSome(some: SomeCond, thn: Action, els: Action)
    | Call(params: seq<Id>, results: seq<Id>, callee: Action, actuals: seq<Expr>, outs: seq<Target>)

  /** The valuation in which an action reads its expressions. */
  ghost function Now(o: State, s: State): Val
  {
    Mk(o, s, s)
  }

  ghost predicate True(f: Expr, o: State, s: State)
  {
    Valid(f, Now(o, s))
  }

  // ----- assignment and havoc -----

  /** The cell at a is one of those that the index expressions address; variables address every index. */
  ghost predicate Addressed(args: seq<Expr>, v: Val, a: seq<int>)
    requires |a| == |args|
  {
    forall k :: 0 <= k < |args| && !args[k].Var? ==> a[k] == Eval(args[k], v, map[])
  }

  /** The values of the index variables at the cell a. */
  ghost function IndexEnv(args: seq<Expr>, a: seq<int>): Env
    requires |a| == |args|
  {
    if args == [] then map[] else
    var n := |args| - 1;
    var env := IndexEnv(args[..n], a[..n]);
    if args[n].Var? then env[args[n].name := a[n]] else env
  }

  ghost predicate Assigned(target: Target, rhs: Expr, o: State, s: State, t: State)
  {
    && (forall i: Id :: i != target.x ==> t(i) == s(i))
    && forall a: seq<int> :: |a| == |target.args| ==>
         t(target.x)(a) == if Addressed(target.args, Now(o, s), a)
                           then Eval(rhs, Now(o, s), IndexEnv(target.args, a))
                           else s(target.x)(a)
  }

  ghost predicate Havocked(target: Target, o: State, s: State, t: State)
  {
    && (forall i: Id :: i != target.x ==> t(i) == s(i))
    && forall a: seq<int> :: |a| == |target.args| && !Addressed(target.args, Now(o, s), a) ==>
         t(target.x)(a) == s(target.x)(a)
  }

  // ----- calls -----

  /** The callee starts with its parameters set to the values of the actuals, all at once, and with
      arbitrary values of its return symbols. */
  ghost predicate Entered(params: seq<Id>, results: seq<Id>, actuals: seq<Expr>, o: State, s: State, e: State)
    requires |params| == |actuals|
  {
    && SameOff(params + results, e, s)
    && forall k :: 0 <= k < |params| ==> e(params[k])([]) == Eval(actuals[k], Now(o, s), map[])
  }

  /** The caller's own symbols that share a name with a formal are back; the rest is what the callee left. */
  ghost predicate Left(formals: seq<Id>, s: State, x: State, r: State)
  {
    SameOff(formals, r, x) && SameOn(formals, r, s)
  }

  /** The return values are stored one by one. */
  ghost predicate Delivered(outs: seq<Target>, results: seq<Id>, x: State, o: State, r: State, t: State)
    requires |outs| == |results|
  {
    if outs == [] then Same(r, t) else
    var n := |outs| - 1;
    exists m: State :: Delivered(outs[..n], results[..n], x, o, r, m) &&
                       Assigned(outs[n], Lit(x(results[n])([])), o, m, t)
  }

  // ----- if some -----

  ghost function IndexOf(some: SomeCond, o: State, s: State): int
  {
    Eval(some.index, Now(o, s), map[])
  }

  ghost predicate Witnesses(some: SomeCond, o: State, s: State, w: State)
  {
    SameOff(some.params, w, s) && CondHolds(some.f, o, w)
  }

  /** w is a witness, and no other has a better index. */
  ghost predicate Picked(some: SomeCond, o: State, s: State, w: State)
  {
    && Witnesses(some, o, s, w)
    && forall w': State :: Witnesses(some, o, s, w') ==>
         match some.optimum
         case Any => true
         case Minimal => IndexOf(some, o, w) <= IndexOf(some, o, w')
         case Maximal => IndexOf(some, o, w) >= IndexOf(some, o, w')
  }

  // ----- runs -----

  ghost predicate Exec(a: Action, o: State, s: State, t: State)
    decreases a, 0, 0
  {
    match a
    case Assume(f) => Same(s, t) && True(f, o, s)
    case Assert(_) => Same(s, t)
    case Assign(target, rhs) => Assigned(target, rhs, o, s, t)
    case Havoc(target) => Havocked(target, o, s, t)
    case Sequence(es) => ExecSeq(es, o, s, t)
    case Choice(bs) => exists k :: 0 <= k < |bs| && Exec(bs[k], o, s, t)
    case If(c, thn, els) => if CondHolds(c, o, s) then Exec(thn, o, s, t) else Exec(els, o, s, t)
    case Local(xs, body) =>
      SameOn(xs, s, t) && exists s1: State, t1: State ::
        SameOff(xs, s1, s) && SameOff(xs, t1, t) && Exec(body, o, s1, t1)
    case BindOldsAction(inner) => Exec(inner, s, s, t)
    case While(c, _, _, body) => !CondHolds(c, o, t) && exists n: nat :: Iterates(c, body, n, o, s, t)
    case IfSome(some, thn, els) =>
      || (SameOn(some.params, s, t) &&
          exists w: State, t1: State :: Picked(some, o, s, w) && SameOff(some.params, t1, t) && Exec(thn, o, w, t1))
      || ((forall w: State :: !Witnesses(some, o, s, w)) && Exec(els, o, s, t))
    case Call(params, results, callee, actuals, outs) =>
      && |params| == |actuals| && |results| == |outs|
      && exists e: State, x: State, r: State ::
           && Entered(params, results, actuals, o, s, e)
           && Exec(callee, e, e, x)
           && Left(params + results, s, x, r)
           && Delivered(outs, results, x, o, r, t)
  }

  ghost predicate ExecSeq(es: seq<Action>, o: State, s: State, t: State)
    decreases es, 0, 0
  {
    if es == [] then Same(s, t) else
    var n := |es| - 1;
    exists m: State :: ExecSeq(es[..n], o, s, m) && Exec(es[n], o, m, t)
  }

  /** n rounds of the loop body, each entered with the condition true. */
  ghost predicate Iterates(c: Expr, body: Action, n: nat, o: State, s: State, t: State)
    decreases body, 1, n
  {
    if n == 0 then Same(s, t) else
    exists m: State :: Iterates(c, body, n - 1, o, s, m) && CondHolds(c, o, m) && Exec(body, o, m, t)
  }

  /** Some run from s reaches a false assertion. */
  ghost predicate Aborts(a: Action, o: State, s: State)
    decreases a, 0, 0
  {
    match a
    case Assume(_) => false
    case Assert(f) => !True(f, o, s)
    case Assign(_, _) => false
    case Havoc(_) => false
    case Sequence(es) => AbortsSeq(es, o, s)
    case Choice(bs) => exists k :: 0 <= k < |bs| && Aborts(bs[k], o, s)
    case If(c, thn, els) => if CondHolds(c, o, s) then Aborts(thn, o, s) else Aborts(els, o, s)
    case Local(xs, body) => exists s1: State :: SameOff(xs, s1, s) && Aborts(body, o, s1)
    case BindOldsAction(inner) => Aborts(inner, s, s)
    case While(c, _, _, body) =>
      exists n: nat, m: State :: Iterates(c, body, n, o, s, m) && CondHolds(c, o, m) && Aborts(body, o, m)
    case IfSome(some, thn, els) =>
      || (exists w: State :: Picked(some, o, s, w) && Aborts(thn, o, w))
      || ((forall w: State :: !Witnesses(some, o, s, w)) && Aborts(els, o, s))
    case Call(params, results, callee, actuals, outs) =>
      && |params| == |actuals| && |results| == |outs|
      && exists e: State :: Entered(params, results, actuals, o, s, e) && Aborts(callee, e, e)
  }

  ghost predicate AbortsSeq(es: seq<Action>, o: State, s: State)
    decreases es, 0, 0
  {
    if es == [] then false else
    var n := |es| - 1;
    AbortsSeq(es[..n], o, s) || exists m: State :: ExecSeq(es[..n], o, s, m) && Aborts(es[n], o, m)
  }
}
