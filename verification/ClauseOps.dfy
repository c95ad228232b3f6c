/**
 Operations on clauses: lists of modified symbols, frames, renaming with fresh names, and the
 conjunction, disjunction and conditional of clauses.  Disjunction and conditional introduce fresh
 booleans, so their meaning is stated up to the values of the existential symbols.
 */
module ClauseOps {
  import opened Names
  import opened Logic

  // ----- frame conditions -----

  /** The definition of the new value of each symbol as its present value. */
  function Frames(ids: seq<Id>): Clauses
  {
    if ids == [] then TOP else
    var i := ids[|ids| - 1];
    Both(Frames(ids[..|ids| - 1]), Copy(NewSym(i), BaseSym(i)))
  }

  lemma {:induction false} FramesMeaning(ids: seq<Id>, v: Val)
    ensures Holds(Frames(ids), v) <==> forall i :: i in ids ==> v(NewSym(i)) == v(BaseSym(i))
  {
    if ids != [] {
      var init, last := ids[..|ids| - 1], ids[|ids| - 1];
      FramesMeaning(init, v);
      assert ids == init + [last];
      assert Holds(Copy(NewSym(last), BaseSym(last)), v) <==> v(NewSym(last)) == v(BaseSym(last));
      assert Holds(Frames(ids), v) <==> Holds(Frames(init), v) && Holds(Copy(NewSym(last), BaseSym(last)), v);
    }
  }

  lemma {:induction false} FramesUsed(ids: seq<Id>)
    ensures forall x :: x in Used(Frames(ids)) ==> (x.kind.New? || x.kind.Base?) && x.id in ids
  {
    if ids != [] {
      FramesUsed(ids[..|ids| - 1]);
    }
  }

  // ----- lists of modified symbols -----

  /** The elements of a that are in b when keep holds, those that are not otherwise. */
  function Select(a: seq<Id>, b: seq<Id>, keep: bool): (r: seq<Id>)
    ensures forall i :: i in r <==> i in a && (i in b) == keep
  {
    if a == [] then [] else
    var r := Select(a[..|a| - 1], b, keep);
    assert a == a[..|a| - 1] + [a[|a| - 1]];
    if (a[|a| - 1] in b) == keep then r + [a[|a| - 1]] else r
  }

  function AddNew(acc: seq<Id>, xs: seq<Id>): (r: seq<Id>)
    ensures forall i :: i in r <==> i in acc || i in xs
  {
    if xs == [] then acc else
    var r := AddNew(acc, xs[..|xs| - 1]);
    assert xs == xs[..|xs| - 1] + [xs[|xs| - 1]];
    if xs[|xs| - 1] in r then r else r + [xs[|xs| - 1]]
  }

  /** Union of two lists of modified symbols, without repetition. */
  function UpdatedJoin(a: seq<Id>, b: seq<Id>): seq<Id>
  {
    AddNew(AddNew([], a), b)
  }

  function DiffFrame(a: seq<Id>, b: seq<Id>): Clauses
  {
    Frames(Select(b, a, false))
  }

  // ----- fresh renamings -----

  datatype Renamer = Renamer(m: Renaming, used: set<string>)

  /** The renaming sends symbols to distinct existential symbols whose names avoid the used ones. */
  ghost predicate Apart(m: Renaming, used: set<string>)
  {
    && (forall x :: x in m ==> m[x].kind == Skolem && m[x].id.name !in used)
    && Injective(m)
  }

  ghost predicate Injective(m: Renaming)
  {
    forall x, y :: x in m && y in m && m[x] == m[y] ==> x == y
  }

  /** One pass of a unique renamer over a list of symbols. */
  function RenameAll(prefix: string, xs: seq<Sym>, used: set<string>): (r: Renamer)
    ensures r.m.Keys == set x | x in xs
    ensures used <= r.used && forall x :: x in r.m ==> r.m[x].id.name in r.used
    ensures Apart(r.m, used)
  {
    if xs == [] then Renamer(map[], used) else
    var x := xs[|xs| - 1];
    var r := RenameAll(prefix, xs[..|xs| - 1], used);
    var name := Fresh(prefix, Spell(x), r.used);
    assert xs == xs[..|xs| - 1] + [x];
    Renamer(r.m[x := Sym(Skolem, Id(name, x.id.arity))], r.used + {name})
  }

  /** The symbols of an expression in the order in which a traversal meets them. */
  function Ordered(e: Expr): seq<Sym>
    decreases e, 1
  {
    match e
    case Var(_) => []
    case Lit(_) => []
    case App(f, args) => [f] + OrderedAll(args)
    case Not(a) => Ordered(a)
    case Op(_, l, r) => Ordered(l) + Ordered(r)
    case Ite(c, t, f) => Ordered(c) + Ordered(t) + Ordered(f)
    case Quant(_, _, b) => Ordered(b)
  }

  function OrderedAll(es: seq<Expr>): seq<Sym>
    decreases es, 0
  {
    if es == [] then [] else OrderedAll(es[..|es| - 1]) + Ordered(es[|es| - 1])
  }

  function OrderedUsed(c: Clauses): seq<Sym>
  {
    match c
    case Const(_) => []
    case Fact(e) => Ordered(e)
    case Flag(x, _) => [x]
    case Copy(x, y) => [x, y]
    case Pair(_, a, b) => OrderedUsed(a) + OrderedUsed(b)
  }

  lemma {:induction false} OrderedSyms(e: Expr)
    ensures forall x :: x in Ordered(e) <==> x in Syms(e)
    decreases e, 1
  {
    match e
    case Var(_) =>
    case Lit(_) =>
    case App(f, args) => OrderedSymsAll(args);
    case Not(a) => OrderedSyms(a);
    case Op(_, l, r) => OrderedSyms(l); OrderedSyms(r);
    case Ite(c, t, f) => OrderedSyms(c); OrderedSyms(t); OrderedSyms(f);
    case Quant(_, _, b) => OrderedSyms(b);
  }

  lemma {:induction false} OrderedSymsAll(es: seq<Expr>)
    ensures forall x :: x in OrderedAll(es) <==> x in SymsAll(es)
    decreases es, 0
  {
    if es != [] {
      OrderedSymsAll(es[..|es| - 1]);
      OrderedSyms(es[|es| - 1]);
    }
  }

  lemma {:induction false} OrderedUsedSyms(c: Clauses)
    ensures forall x :: x in OrderedUsed(c) <==> x in Used(c)
  {
    match c
    case Const(_) =>
    case Fact(e) => OrderedSyms(e);
    case Flag(_, _) =>
    case Copy(_, _) =>
    case Pair(_, a, b) => OrderedUsedSyms(a); OrderedUsedSyms(b);
  }

  /** The existential symbols of a list, once each. */
  function Skolems(xs: seq<Sym>): (r: seq<Sym>)
    ensures forall x :: x in r <==> x in xs && x.kind.Skolem?
  {
    if xs == [] then [] else
    var x := xs[|xs| - 1];
    var r := Skolems(xs[..|xs| - 1]);
    assert xs == xs[..|xs| - 1] + [x];
    if x.kind.Skolem? && x !in r then r + [x] else r
  }

  function DistinctMap(c: Clauses, d: Clauses): (m: Renaming)
    ensures forall x :: x in m <==> x in Used(c) && x.kind.Skolem?
    ensures Apart(m, UsedNames(d))
  {
    OrderedUsedSyms(c);
    RenameAll("", Skolems(OrderedUsed(c)), UsedNames(d)).m
  }

  /** Renames the existential symbols of c apart from the symbols of d. */
  function RenameDistinct(c: Clauses, d: Clauses): Clauses
  {
    Rename(c, DistinctMap(c, d))
  }

  // ----- conjunction and disjunction -----

  predicate IsFalse(c: Clauses)
  {
    match c
    case Const(b) => !b
    case Fact(e) => e == Lit(0)
    case Pair(all, a, b) => all && (IsFalse(a) || IsFalse(b))
    case _ => false
  }

  lemma {:induction false} IsFalseMeaning(c: Clauses, v: Val)
    requires IsFalse(c)
    ensures !Holds(c, v)
  {
    match c
    case Const(_) =>
    case Fact(e) => assert Eval(e, v, map[]) == 0;
    case Pair(_, a, b) => if IsFalse(a) { IsFalseMeaning(a, v); } else { IsFalseMeaning(b, v); }
  }

  function And(c: Clauses, d: Clauses): Clauses
  {
    if IsFalse(c) || IsFalse(d) then BOT else Both(c, d)
  }

  lemma AndMeaning(c: Clauses, d: Clauses, v: Val)
    ensures Holds(And(c, d), v) <==> Holds(c, v) && Holds(d, v)
  {
    if IsFalse(c) { IsFalseMeaning(c, v); }
    if IsFalse(d) { IsFalseMeaning(d, v); }
  }

  function FreshBool(used: set<string>): (x: Sym)
    ensures x.kind.Skolem? && x.id.arity == 0 && Spell(x) !in used
  {
    Sym(Skolem, Id(Fresh("__ts0", "", used), 0))
  }

  /** Disjunction by a fresh boolean per disjunct; false disjuncts are dropped. */
  function Or(c: Clauses, d: Clauses): Clauses
  {
    if IsFalse(c) && IsFalse(d) then BOT
    else if IsFalse(c) then d
    else if IsFalse(d) then c
    else
      var a := FreshBool(UsedNames(c) + UsedNames(d));
      var b := FreshBool(UsedNames(c) + UsedNames(d) + {Spell(a)});
      Branch(a, c, b, d)
  }

  function Branch(a: Sym, c: Clauses, b: Sym, d: Clauses): Clauses
  {
    Both(Either(Flag(a, true), Flag(b, true)), Both(Either(Flag(a, false), c), Either(Flag(b, false), d)))
  }

  /** Conditional by a fresh boolean defined as the condition. */
  function IteClauses(cond: Expr, c: Clauses, d: Clauses): Clauses
  {
    if IsFalse(c) && IsFalse(d) then c
    else
      var a := FreshBool(UsedNames(c) + UsedNames(d) + SymNames(cond));
      Guarded(a, cond, c, d)
  }

  function Guarded(a: Sym, cond: Expr, c: Clauses, d: Clauses): Clauses
  {
    Both(Both(Either(Flag(a, false), c), Either(Flag(a, true), d)), Defines(a, cond))
  }

  function Defines(a: Sym, cond: Expr): Clauses
  {
    Fact(Op(Equals, App(a, []), Not(Not(cond))))
  }

  // ----- meaning up to the existential symbols -----

  predicate Program(x: Sym)
  {
    x.kind.Base? || x.kind.New? || x.kind.Old?
  }

  ghost predicate SameProgram(v: Val, w: Val)
  {
    forall x: Sym :: Program(x) ==> v(x) == w(x)
  }

  /** Some values of the existential symbols make the clauses true. */
  ghost predicate Ex(c: Clauses, v: Val)
  {
    exists w: Val :: SameProgram(v, w) && Holds(c, w)
  }

  ghost function SetSym(v: Val, x: Sym, t: Table): Val
  {
    (y: Sym) => if y == x then t else v(y)
  }

  ghost function BoolTable(b: bool): (t: Table)
    ensures t([]) == if b then 1 else 0
  {
    a => if b then 1 else 0
  }

  lemma Unused(x: Sym, c: Clauses)
    requires Spell(x) !in UsedNames(c)
    ensures x !in Used(c)
  {
  }

  /** Setting a symbol that does not occur changes nothing. */
  lemma SetUnused(c: Clauses, v: Val, x: Sym, t: Table)
    requires Spell(x) !in UsedNames(c)
    ensures Holds(c, SetSym(v, x, t)) == Holds(c, v)
  {
    Unused(x, c);
    Coincide(c, v, SetSym(v, x, t));
  }

  lemma BranchMeaning(a: Sym, c: Clauses, b: Sym, d: Clauses, w: Val)
    ensures Holds(Branch(a, c, b, d), w) <==>
            (IsOn(a, w) || IsOn(b, w)) && (IsOn(a, w) ==> Holds(c, w)) && (IsOn(b, w) ==> Holds(d, w))
  {
    assert Holds(Either(Flag(a, false), c), w) <==> (IsOn(a, w) ==> Holds(c, w));
    assert Holds(Either(Flag(b, false), d), w) <==> (IsOn(b, w) ==> Holds(d, w));
    assert Holds(Either(Flag(a, true), Flag(b, true)), w) <==> IsOn(a, w) || IsOn(b, w);
    assert Holds(Both(Either(Flag(a, false), c), Either(Flag(b, false), d)), w) <==>
           (IsOn(a, w) ==> Holds(c, w)) && (IsOn(b, w) ==> Holds(d, w));
  }

  lemma GuardedMeaning(a: Sym, cond: Expr, c: Clauses, d: Clauses, w: Val)
    requires EnvFree(cond)
    ensures Holds(Guarded(a, cond, c, d), w) <==>
            w(a)([]) == Truth(Eval(cond, w, map[]) != 0) && Holds(if Eval(cond, w, map[]) != 0 then c else d, w)
  {
    DefinesMeaning(a, cond, w);
    assert Holds(Either(Flag(a, false), c), w) <==> (IsOn(a, w) ==> Holds(c, w));
    assert Holds(Either(Flag(a, true), d), w) <==> (!IsOn(a, w) ==> Holds(d, w));
    assert Holds(Both(Either(Flag(a, false), c), Either(Flag(a, true), d)), w) <==>
           Holds(if IsOn(a, w) then c else d, w);
  }

  lemma FalseEx(c: Clauses, v: Val)
    requires IsFalse(c)
    ensures !Ex(c, v)
  {
    forall w: Val ensures !Holds(c, w) { IsFalseMeaning(c, w); }
  }

  /** Disjunction is union: the fresh booleans record which disjuncts hold. */
  lemma OrMeaning(c: Clauses, d: Clauses, v: Val)
    ensures Ex(Or(c, d), v) <==> Ex(c, v) || Ex(d, v)
  {
    if IsFalse(c) || IsFalse(d) {
      if IsFalse(c) { FalseEx(c, v); }
      if IsFalse(d) { FalseEx(d, v); }
    } else {
      var a := FreshBool(UsedNames(c) + UsedNames(d));
      var b := FreshBool(UsedNames(c) + UsedNames(d) + {Spell(a)});
      forall w: Val | SameProgram(v, w)
        ensures Holds(Branch(a, c, b, d), w) ==> Holds(c, w) || Holds(d, w)
        ensures Holds(c, w) || Holds(d, w) ==> Ex(Branch(a, c, b, d), v)
      {
        BranchMeaning(a, c, b, d, w);
        if Holds(c, w) || Holds(d, w) {
          BranchWitness(a, c, b, d, v, w);
        }
      }
    }
  }

  lemma BranchWitness(a: Sym, c: Clauses, b: Sym, d: Clauses, v: Val, w: Val)
    requires SameProgram(v, w) && (Holds(c, w) || Holds(d, w))
    requires a.kind.Skolem? && b.kind.Skolem? && a != b
    requires Spell(a) !in UsedNames(c) && Spell(a) !in UsedNames(d)
    requires Spell(b) !in UsedNames(c) && Spell(b) !in UsedNames(d)
    ensures Ex(Branch(a, c, b, d), v)
  {
    var p, q := BoolTable(Holds(c, w)), BoolTable(Holds(d, w));
    var w1 := SetSym(w, a, p);
    var w2 := SetSym(w1, b, q);
    SetUnused(c, w, a, p);
    SetUnused(d, w, a, p);
    SetUnused(c, w1, b, q);
    SetUnused(d, w1, b, q);
    BranchMeaning(a, c, b, d, w2);
    assert SameProgram(v, w2);
  }

  /** The condition has no free variables. */
  ghost predicate EnvFree(cond: Expr)
  {
    forall v: Val, env: Env :: Eval(cond, v, env) == Eval(cond, v, map[])
  }

  /** The condition mentions program symbols only and has no free variables. */
  ghost predicate ClosedCond(cond: Expr)
  {
    (forall x :: x in Syms(cond) ==> Program(x)) && EnvFree(cond)
  }

  lemma DefinesMeaning(a: Sym, cond: Expr, w: Val)
    requires EnvFree(cond)
    ensures Holds(Defines(a, cond), w) <==> w(a)([]) == Truth(Eval(cond, w, map[]) != 0)
  {
    var e := Op(Equals, App(a, []), Not(Not(cond)));
    forall env: Env
      ensures Eval(e, w, env) == Truth(w(a)([]) == Truth(Eval(cond, w, map[]) != 0))
    {
      assert Eval(App(a, []), w, env) == w(a)([]);
      assert Eval(Not(Not(cond)), w, env) == Truth(Eval(cond, w, env) != 0);
    }
    assert Eval(e, w, map[]) == Truth(w(a)([]) == Truth(Eval(cond, w, map[]) != 0));
  }

  lemma CondSame(cond: Expr, v: Val, w: Val)
    requires ClosedCond(cond) && SameProgram(v, w)
    ensures Eval(cond, v, map[]) == Eval(cond, w, map[])
  {
    EvalCoincide(cond, v, w, map[]);
  }

  lemma GuardedEx(a: Sym, cond: Expr, c: Clauses, d: Clauses, v: Val)
    requires ClosedCond(cond) && a.kind.Skolem? && Spell(a) !in UsedNames(c) && Spell(a) !in UsedNames(d)
    ensures Ex(Guarded(a, cond, c, d), v) <==> if Eval(cond, v, map[]) != 0 then Ex(c, v) else Ex(d, v)
  {
    hide Holds, Eval, Guarded;
    var b := Eval(cond, v, map[]) != 0;
    forall w: Val | SameProgram(v, w)
      ensures Holds(Guarded(a, cond, c, d), w) ==> Holds(if b then c else d, w)
      ensures Holds(if b then c else d, w) ==> Ex(Guarded(a, cond, c, d), v)
    {
      CondSame(cond, v, w);
      GuardedMeaning(a, cond, c, d, w);
      var w' := SetSym(w, a, BoolTable(b));
      assert SameProgram(v, w');
      CondSame(cond, v, w');
      SetUnused(c, w, a, BoolTable(b));
      SetUnused(d, w, a, BoolTable(b));
      GuardedMeaning(a, cond, c, d, w');
    }
  }

  /** The conditional is guarded union. */
  lemma IteMeaning(cond: Expr, c: Clauses, d: Clauses, v: Val)
    requires ClosedCond(cond)
    ensures Ex(IteClauses(cond, c, d), v) <==> if Eval(cond, v, map[]) != 0 then Ex(c, v) else Ex(d, v)
  {
    if IsFalse(c) && IsFalse(d) {
      FalseEx(c, v);
      FalseEx(d, v);
    } else {
      GuardedEx(FreshBool(UsedNames(c) + UsedNames(d) + SymNames(cond)), cond, c, d, v);
    }
  }

  /** A valuation that is right about the program symbols that occur is as good as one that is right
      about all of them. */
  lemma ExBy(c: Clauses, v: Val, w: Val)
    requires Holds(c, w)
    requires forall x :: x in Used(c) && Program(x) ==> w(x) == v(x)
    ensures Ex(c, v)
  {
    var u: Val := (x: Sym) => if Program(x) then v(x) else w(x);
    Coincide(c, w, u);
    assert SameProgram(v, u);
  }

  ghost function Inverse(m: Renaming, y: Sym): (x: Sym)
    requires y in m.Values
    ensures x in m && m[x] == y
  {
    var x :| x in m && m[x] == y;
    x
  }

  /** A used existential symbol is not among those an apart renaming introduces. */
  lemma NotIntroduced(m: Renaming, c: Clauses, x: Sym)
    requires Apart(m, UsedNames(c)) && x in Used(c)
    ensures x !in m.Values
  {
    assert Spell(x) in UsedNames(c);
  }

  lemma InverseIs(m: Renaming, used: set<string>, x: Sym)
    requires Apart(m, used) && x in m
    ensures m[x] in m.Values && Inverse(m, m[x]) == x && m[x].kind == Skolem
  {
  }

  lemma LookupIn(m: Renaming, x: Sym)
    requires x in m
    ensures Lookup(m, x) == m[x]
  {
  }

  lemma LookupOut(m: Renaming, x: Sym)
    requires x !in m
    ensures Lookup(m, x) == x
  {
  }

  lemma RenamedUsed(c: Clauses, m: Renaming, x: Sym)
    requires x in Used(c)
    ensures Lookup(m, x) in Used(Rename(c, m))
  {
    RenameUsed(c, m);
  }

  lemma IntroducedSkolem(m: Renaming, used: set<string>, x: Sym)
    requires Apart(m, used) && !x.kind.Skolem?
    ensures x !in m.Values
  {
  }

  /** The valuations agree on the program symbols that are not renamed. */
  ghost predicate SameBut(m: Renaming, w: Val, v: Val)
  {
    forall x :: Program(x) && x !in m ==> w(x) == v(x)
  }

  /** Existential quantification by renaming to fresh names is projection. */
  lemma ProjectMeaning(c: Clauses, m: Renaming, v: Val)
    requires Apart(m, UsedNames(c))
    ensures Ex(Rename(c, m), v) <==> exists w: Val :: SameBut(m, w, v) && Ex(c, w)
  {
    forall u: Val | SameProgram(v, u) && Holds(Rename(c, m), u)
      ensures exists w: Val :: SameBut(m, w, v) && Ex(c, w)
    {
      RenameMeaning(c, m, u);
      var w := Pull(u, m);
      forall x | Program(x) && x !in m
        ensures w(x) == v(x)
      {
        LookupOut(m, x);
      }
      assert SameProgram(w, w);
      assert SameBut(m, w, v) && Ex(c, w);
    }
    forall w: Val | SameBut(m, w, v) && Ex(c, w)
      ensures Ex(Rename(c, m), v)
    {
      var w': Val :| SameProgram(w, w') && Holds(c, w');
      ProjectWitness(c, m, v, w');
    }
  }

  lemma ProjectWitness(c: Clauses, m: Renaming, v: Val, w: Val)
    requires Apart(m, UsedNames(c)) && Holds(c, w) && SameBut(m, w, v)
    ensures Ex(Rename(c, m), v)
    ensures Holds(Rename(c, m), Spread(m, v, w)) && SameProgram(v, Spread(m, v, w))
  {
    hide Holds, Rename, Used;
    var u := Spread(m, v, w);
    forall x | x in Used(c)
      ensures Pull(u, m)(x) == w(x)
    {
      NotIntroduced(m, c, x);
      if x in m {
        InverseIs(m, UsedNames(c), x);
        LookupIn(m, x);
      } else {
        LookupOut(m, x);
      }
    }
    Coincide(c, w, Pull(u, m));
    RenameMeaning(c, m, u);
  }

  /** Program symbols read v, the symbols a renaming introduces read w at the originals, others w. */
  ghost function Spread(m: Renaming, v: Val, w: Val): Val
  {
    (x: Sym) => if Program(x) then v(x) else if x in m.Values then w(Inverse(m, x)) else w(x)
  }

  /** Conjunction with the existential symbols of d renamed apart is intersection. */
  lemma ConjoinMeaning(c: Clauses, d: Clauses, v: Val)
    requires NoRigid(c) || NoRigid(d)
    ensures Ex(Conjoin(c, d), v) <==> Ex(c, v) && Ex(d, v)
  {
    hide Holds, Rename, Used, And;
    var m := DistinctMap(d, c);
    forall w: Val | SameProgram(v, w) && Holds(Conjoin(c, d), w)
      ensures Ex(c, v) && Ex(d, v)
    {
      AndMeaning(c, Rename(d, m), w);
      RenameMeaning(d, m, w);
      forall x: Sym | Program(x)
        ensures v(x) == Pull(w, m)(x)
      {
        LookupOut(m, x);
      }
    }
    forall w1: Val, w2: Val | SameProgram(v, w1) && Holds(c, w1) && SameProgram(v, w2) && Holds(d, w2)
      ensures Ex(Conjoin(c, d), v)
    {
      ConjoinWitness(c, d, v, w1, w2);
    }
  }

  ghost function Merge(m: Renaming, first: bool, w1: Val, w2: Val): Val
  {
    (x: Sym) => if x in m.Values then w2(Inverse(m, x)) else if x.kind.Rigid? && !first then w2(x) else w1(x)
  }

  lemma ConjoinWitness(c: Clauses, d: Clauses, v: Val, w1: Val, w2: Val)
    requires NoRigid(c) || NoRigid(d)
    requires SameProgram(v, w1) && Holds(c, w1) && SameProgram(v, w2) && Holds(d, w2)
    ensures var w := Merge(DistinctMap(d, c), NoRigid(d), w1, w2);
            SameProgram(v, w) && Holds(Conjoin(c, d), w)
  {
    hide Holds, Rename, Used, And;
    var m := DistinctMap(d, c);
    var w := Merge(m, NoRigid(d), w1, w2);
    forall x | x in Used(c)
      ensures w(x) == w1(x)
    {
      NotIntroduced(m, c, x);
    }
    forall x | x in Used(d)
      ensures Pull(w, m)(x) == w2(x)
    {
      if x.kind.Skolem? {
        InverseIs(m, UsedNames(c), x);
        LookupIn(m, x);
      } else {
        LookupOut(m, x);
        IntroducedSkolem(m, UsedNames(c), x);
      }
    }
    Coincide(c, w, w1);
    Coincide(d, Pull(w, m), w2);
    RenameMeaning(d, m, w);
    AndMeaning(c, Rename(d, m), w);
  }

  function Conjoin(c: Clauses, d: Clauses): Clauses
  {
    And(c, RenameDistinct(d, c))
  }

  predicate NoRigid(c: Clauses)
  {
    forall x :: x in Used(c) ==> !x.kind.Rigid?
  }

  // ----- symbols of the results -----

  lemma AndUsed(c: Clauses, d: Clauses)
    ensures Used(And(c, d)) <= Used(c) + Used(d)
  {
  }

  lemma OrUsed(c: Clauses, d: Clauses)
    ensures forall x :: x in Used(Or(c, d)) ==> x in Used(c) || x in Used(d) || x.kind.Skolem?
  {
    if !IsFalse(c) && !IsFalse(d) {
      var a := FreshBool(UsedNames(c) + UsedNames(d));
      var b := FreshBool(UsedNames(c) + UsedNames(d) + {Spell(a)});
      BranchUsed(a, c, b, d);
    }
  }

  lemma BranchUsed(a: Sym, c: Clauses, b: Sym, d: Clauses)
    ensures Used(Branch(a, c, b, d)) == {a} + {b} + Used(c) + Used(d)
  {
    var l, r := Either(Flag(a, false), c), Either(Flag(b, false), d);
    FlagUsed(a, true);
    FlagUsed(a, false);
    FlagUsed(b, true);
    FlagUsed(b, false);
    PairUsed(false, Flag(a, false), c);
    PairUsed(false, Flag(b, false), d);
    PairUsed(false, Flag(a, true), Flag(b, true));
    PairUsed(true, l, r);
    PairUsed(true, Either(Flag(a, true), Flag(b, true)), Both(l, r));
  }

  lemma FlagUsed(x: Sym, on: bool)
    ensures Used(Flag(x, on)) == {x}
  {
  }

  lemma PairUsed(all: bool, c: Clauses, d: Clauses)
    ensures Used(Pair(all, c, d)) == Used(c) + Used(d)
  {
  }

  lemma GuardedUsed(a: Sym, cond: Expr, c: Clauses, d: Clauses)
    ensures Used(Guarded(a, cond, c, d)) == {a} + Used(c) + Used(d) + Syms(cond)
  {
    var l, r := Either(Flag(a, false), c), Either(Flag(a, true), d);
    assert Syms(App(a, [])) == {a};
    assert Syms(Not(Not(cond))) == Syms(cond);
    assert Used(Defines(a, cond)) == {a} + Syms(cond);
    assert Used(Flag(a, false)) == {a} && Used(Flag(a, true)) == {a};
    assert Used(l) == {a} + Used(c);
    assert Used(r) == {a} + Used(d);
    assert Used(Both(l, r)) == Used(l) + Used(r);
  }

  lemma IteUsed(cond: Expr, c: Clauses, d: Clauses)
    ensures forall x :: x in Used(IteClauses(cond, c, d)) ==>
              x in Used(c) || x in Used(d) || x in Syms(cond) || x.kind.Skolem?
  {
    hide Guarded, Used;
    if !IsFalse(c) || !IsFalse(d) {
      GuardedUsed(FreshBool(UsedNames(c) + UsedNames(d) + SymNames(cond)), cond, c, d);
    }
  }
}
