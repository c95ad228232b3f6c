/**
 The logic of transition relations: symbols, expressions, clauses, their meaning under a valuation, and
 the two facts every later proof rests on -- renaming symbols is pulling the valuation back, and only
 the symbols that occur matter.
 */
module Logic {
  import opened Names

  // ----- symbols -----

  /** A symbol's name together with its sort, of which only the number of arguments is kept. */
  datatype Id = Id(name: string, arity: nat)

  /** What a symbol stands for: a program symbol now, after the action, or at the entry of the enclosing
      call; an existentially quantified symbol; or one that is never renamed apart. */
  datatype Kind = Base | New | Old | Skolem | Rigid

  datatype Sym = Sym(kind: Kind, id: Id)

  function BaseSym(i: Id): Sym { Sym(Base, i) }

  function NewSym(i: Id): Sym { Sym(New, i) }

  function OldSym(i: Id): Sym { Sym(Old, i) }

  function Spell(x: Sym): string
  {
    match x.kind
    case New => "new_" + x.id.name
    case Old => "old_" + x.id.name
    case _ => x.id.name
  }

  // ----- expressions -----

  datatype BinOp = Conj | Disj | Equals | Less

  datatype Expr =
    | Var(name: string)
    | Lit(n: int)
    | App(f: Sym, args: seq<Expr>)
    | Not(e: Expr)
    | Op(op: BinOp, l: Expr, r: Expr)
    | Ite(c: Expr, t: Expr, e: Expr)
    | Quant(all: bool, x: string, body: Expr)

  // ----- valuations -----

  /** The value of a symbol: a number for every list of arguments. */
  type Table = seq<int> -> int

  /** A state gives every program symbol its table. */
  type State = Id -> Table

  type Val = Sym -> Table

  type Env = map<string, int>

  ghost function Zero(): Table { a => 0 }

  function Bind(env: Env, x: string, n: int): Env { env[x := n] }

  function Truth(b: bool): int { if b then 1 else 0 }

  function EvalOp(op: BinOp, x: int, y: int): int
  {
    match op
    case Conj => Truth(x != 0 && y != 0)
    case Disj => Truth(x != 0 || y != 0)
    case Equals => Truth(x == y)
    case Less => Truth(x < y)
  }

  ghost function Eval(e: Expr, v: Val, env: Env): int
    decreases e, 1
  {
    match e
    case Var(x) => if x in env then env[x] else 0
    case Lit(n) => n
    case App(f, args) => v(f)(EvalAll(args, v, env))
    case Not(a) => Truth(Eval(a, v, env) == 0)
    case Op(op, l, r) => EvalOp(op, Eval(l, v, env), Eval(r, v, env))
    case Ite(c, t, f) => if Eval(c, v, env) != 0 then Eval(t, v, env) else Eval(f, v, env)
    case Quant(all, x, b) =>
      if all then Truth(forall n: int :: Eval(b, v, Bind(env, x, n)) != 0)
      else Truth(exists n: int :: Eval(b, v, Bind(env, x, n)) != 0)
  }

  ghost function EvalAll(es: seq<Expr>, v: Val, env: Env): (r: seq<int>)
    ensures |r| == |es|
    decreases es, 0
  {
    if es == [] then [] else EvalAll(es[..|es| - 1], v, env) + [Eval(es[|es| - 1], v, env)]
  }

  lemma {:induction false} EvalAllAt(es: seq<Expr>, v: Val, env: Env, k: nat)
    requires k < |es|
    ensures EvalAll(es, v, env)[k] == Eval(es[k], v, env)
  {
    if k < |es| - 1 {
      EvalAllAt(es[..|es| - 1], v, env, k);
    }
  }

  // ----- clauses -----

  /** Clauses: boolean structure over boolean constants and expressions, each expression closed by
      quantifying its free variables universally. */
  datatype Clauses =
    | Const(b: bool)
    | Fact(e: Expr)
    | Flag(x: Sym, on: bool)
    | Copy(x: Sym, y: Sym)
    | Pair(all: bool, c: Clauses, d: Clauses)

  const TOP := Const(true)
  const BOT := Const(false)

  function Both(c: Clauses, d: Clauses): Clauses { Pair(true, c, d) }

  function Either(c: Clauses, d: Clauses): Clauses { Pair(false, c, d) }

  ghost predicate Valid(e: Expr, v: Val)
  {
    forall env: Env :: Eval(e, v, env) != 0
  }

  /** A boolean constant is on when its value is not zero. */
  ghost predicate IsOn(x: Sym, v: Val)
  {
    v(x)([]) != 0
  }

  ghost predicate Holds(c: Clauses, v: Val)
  {
    match c
    case Const(b) => b
    case Fact(e) => Valid(e, v)
    case Flag(x, on) => IsOn(x, v) == on
    case Copy(x, y) => v(x) == v(y)
    case Pair(all, a, b) => if all then Holds(a, v) && Holds(b, v) else Holds(a, v) || Holds(b, v)
  }

  // ----- occurring symbols -----

  function Syms(e: Expr): set<Sym>
    decreases e, 1
  {
    match e
    case Var(_) => {}
    case Lit(_) => {}
    case App(f, args) => {f} + SymsAll(args)
    case Not(a) => Syms(a)
    case Op(_, l, r) => Syms(l) + Syms(r)
    case Ite(c, t, f) => Syms(c) + Syms(t) + Syms(f)
    case Quant(_, _, b) => Syms(b)
  }

  function SymsAll(es: seq<Expr>): set<Sym>
    decreases es, 0
  {
    if es == [] then {} else SymsAll(es[..|es| - 1]) + Syms(es[|es| - 1])
  }

  function Used(c: Clauses): set<Sym>
  {
    match c
    case Const(_) => {}
    case Fact(e) => Syms(e)
    case Flag(x, _) => {x}
    case Copy(x, y) => {x, y}
    case Pair(_, a, b) => Used(a) + Used(b)
  }

  function UsedNames(c: Clauses): set<string>
  {
    set x | x in Used(c) :: Spell(x)
  }

  function SymNames(e: Expr): set<string>
  {
    set x | x in Syms(e) :: Spell(x)
  }

  // ----- only the symbols that occur matter -----

  ghost predicate AgreeOn(v: Val, w: Val, xs: set<Sym>)
  {
    forall x :: x in xs ==> v(x) == w(x)
  }

  lemma {:induction false} EvalCoincide(e: Expr, v: Val, w: Val, env: Env)
    requires AgreeOn(v, w, Syms(e))
    ensures Eval(e, v, env) == Eval(e, w, env)
    decreases e, 1
  {
    match e
    case Var(_) =>
    case Lit(_) =>
    case App(f, args) => EvalAllCoincide(args, v, w, env);
    case Not(a) => EvalCoincide(a, v, w, env);
    case Op(_, l, r) => EvalCoincide(l, v, w, env); EvalCoincide(r, v, w, env);
    case Ite(c, t, f) => EvalCoincide(c, v, w, env); EvalCoincide(t, v, w, env); EvalCoincide(f, v, w, env);
    case Quant(_, x, b) => forall n: int { EvalCoincide(b, v, w, Bind(env, x, n)); }
  }

  lemma {:induction false} EvalAllCoincide(es: seq<Expr>, v: Val, w: Val, env: Env)
    requires AgreeOn(v, w, SymsAll(es))
    ensures EvalAll(es, v, env) == EvalAll(es, w, env)
    decreases es, 0
  {
    if es != [] {
      EvalAllCoincide(es[..|es| - 1], v, w, env);
      EvalCoincide(es[|es| - 1], v, w, env);
    }
  }

  lemma ValidCoincide(e: Expr, v: Val, w: Val)
    requires AgreeOn(v, w, Syms(e))
    ensures Valid(e, v) == Valid(e, w)
  {
    forall env: Env { EvalCoincide(e, v, w, env); }
  }

  lemma {:induction false} Coincide(c: Clauses, v: Val, w: Val)
    requires AgreeOn(v, w, Used(c))
    ensures Holds(c, v) == Holds(c, w)
  {
    match c
    case Const(_) =>
    case Fact(e) => ValidCoincide(e, v, w);
    case Flag(_, _) =>
    case Copy(_, _) =>
    case Pair(_, a, b) => Coincide(a, v, w); Coincide(b, v, w);
  }

  // ----- renaming -----

  type Renaming = map<Sym, Sym>

  function Lookup(m: Renaming, x: Sym): Sym
  {
    if x in m then m[x] else x
  }

  function RenameExpr(e: Expr, m: Renaming): Expr
    decreases e, 1
  {
    match e
    case Var(_) => e
    case Lit(_) => e
    case App(f, args) => App(Lookup(m, f), RenameExprs(args, m))
    case Not(a) => Not(RenameExpr(a, m))
    case Op(op, l, r) => Op(op, RenameExpr(l, m), RenameExpr(r, m))
    case Ite(c, t, f) => Ite(RenameExpr(c, m), RenameExpr(t, m), RenameExpr(f, m))
    case Quant(all, x, b) => Quant(all, x, RenameExpr(b, m))
  }

  function RenameExprs(es: seq<Expr>, m: Renaming): (r: seq<Expr>)
    ensures |r| == |es|
    decreases es, 0
  {
    if es == [] then [] else RenameExprs(es[..|es| - 1], m) + [RenameExpr(es[|es| - 1], m)]
  }

  function Rename(c: Clauses, m: Renaming): Clauses
  {
    match c
    case Const(_) => c
    case Fact(e) => Fact(RenameExpr(e, m))
    case Flag(x, on) => Flag(Lookup(m, x), on)
    case Copy(x, y) => Copy(Lookup(m, x), Lookup(m, y))
    case Pair(all, a, b) => Pair(all, Rename(a, m), Rename(b, m))
  }

  /** The valuation that reads every symbol through the renaming. */
  ghost function Pull(v: Val, m: Renaming): Val
  {
    (x: Sym) => v(Lookup(m, x))
  }

  lemma {:induction false} RenameExprMeaning(e: Expr, m: Renaming, v: Val, env: Env)
    ensures Eval(RenameExpr(e, m), v, env) == Eval(e, Pull(v, m), env)
    decreases e, 1
  {
    match e
    case Var(_) =>
    case Lit(_) =>
    case App(f, args) => RenameExprsMeaning(args, m, v, env);
    case Not(a) => RenameExprMeaning(a, m, v, env);
    case Op(_, l, r) => RenameExprMeaning(l, m, v, env); RenameExprMeaning(r, m, v, env);
    case Ite(c, t, f) =>
      RenameExprMeaning(c, m, v, env); RenameExprMeaning(t, m, v, env); RenameExprMeaning(f, m, v, env);
    case Quant(_, x, b) => forall n: int { RenameExprMeaning(b, m, v, Bind(env, x, n)); }
  }

  lemma {:induction false} RenameExprsMeaning(es: seq<Expr>, m: Renaming, v: Val, env: Env)
    ensures EvalAll(RenameExprs(es, m), v, env) == EvalAll(es, Pull(v, m), env)
    decreases es, 0
  {
    if es != [] {
      RenameExprsMeaning(es[..|es| - 1], m, v, env);
      RenameExprMeaning(es[|es| - 1], m, v, env);
      var rs := RenameExprs(es, m);
      assert rs[..|rs| - 1] == RenameExprs(es[..|es| - 1], m);
    }
  }

  lemma ValidRename(e: Expr, m: Renaming, v: Val)
    ensures Valid(RenameExpr(e, m), v) <==> Valid(e, Pull(v, m))
  {
    forall env: Env { RenameExprMeaning(e, m, v, env); }
  }

  lemma {:induction false} RenameMeaning(c: Clauses, m: Renaming, v: Val)
    ensures Holds(Rename(c, m), v) <==> Holds(c, Pull(v, m))
  {
    match c
    case Const(_) =>
    case Fact(e) => ValidRename(e, m, v);
    case Flag(_, _) =>
    case Copy(_, _) =>
    case Pair(_, a, b) => RenameMeaning(a, m, v); RenameMeaning(b, m, v);
  }

  function Image(m: Renaming, xs: set<Sym>): set<Sym>
  {
    set x | x in xs :: Lookup(m, x)
  }

  lemma {:induction false} RenameExprSyms(e: Expr, m: Renaming)
    ensures Syms(RenameExpr(e, m)) == Image(m, Syms(e))
    decreases e, 1
  {
    match e
    case Var(_) =>
    case Lit(_) =>
    case App(f, args) => RenameExprsSyms(args, m);
    case Not(a) => RenameExprSyms(a, m);
    case Op(_, l, r) => RenameExprSyms(l, m); RenameExprSyms(r, m);
    case Ite(c, t, f) => RenameExprSyms(c, m); RenameExprSyms(t, m); RenameExprSyms(f, m);
    case Quant(_, x, b) => RenameExprSyms(b, m);
  }

  lemma {:induction false} RenameExprsSyms(es: seq<Expr>, m: Renaming)
    ensures SymsAll(RenameExprs(es, m)) == Image(m, SymsAll(es))
    decreases es, 0
  {
    if es != [] {
      RenameExprsSyms(es[..|es| - 1], m);
      RenameExprSyms(es[|es| - 1], m);
      var rs := RenameExprs(es, m);
      assert rs[..|rs| - 1] == RenameExprs(es[..|es| - 1], m);
    }
  }

  lemma {:induction false} RenameUsed(c: Clauses, m: Renaming)
    ensures Used(Rename(c, m)) == Image(m, Used(c))
  {
    match c
    case Const(_) =>
    case Fact(e) => RenameExprSyms(e, m);
    case Flag(_, _) =>
    case Copy(_, _) =>
    case Pair(_, a, b) => RenameUsed(a, m); RenameUsed(b, m);
  }
}
