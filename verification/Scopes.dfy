/**
 The annotations that updates write are walked as they are meant: along the way that a valuation of the
 clauses takes, no renaming that was entered is seen by a flag that is asked later.  So the walk hands over
 exactly the actions of a run, for every action whose program names are not spelled like existential ones, if
 the order in which renamings are entered does not matter to the flags that are asked.
 */
module Scopes {
  import opened Options
  import opened Names
  import opened Logic
  import opened ClauseOps
  import opened Updates
  import opened Hiding
  import opened Substitution
  import opened Actions
  import opened Sizes
  import opened Atoms
  import opened Somes
  import opened Compiler
  import opened Annotations
  import S = Spelling
  import W = Walkers

  // ----- names that tell the kind of a symbol -----

  /** The name, and with it the names of the values before and after, does not look existential. */
  predicate PlainName(s: string)
  {
    !S.IsSkolem(s) && (s != "" ==> s[0] != '_')
  }

  predicate WellSpelled(x: Sym)
  {
    if Program(x) then PlainName(x.id.name) else S.IsSkolem(x.id.name)
  }

  predicate AllSpelled(xs: set<Sym>)
  {
    forall x :: x in xs ==> WellSpelled(x)
  }

  /** Spelling alike is being alike. */
  lemma SpelledAlike(x: Sym, y: Sym)
    requires WellSpelled(x) && WellSpelled(y) && Spell(x) == Spell(y)
    ensures Program(x) <==> Program(y)
  {
    S.NewNameMistaken(x.id.name);
    S.NewNameMistaken(y.id.name);
  }

  lemma SkolemExtended(s: string, t: string)
    requires S.IsSkolem(s)
    ensures S.IsSkolem(s + t)
  {
    var k :| 0 <= k < |s| && S.At(s, k);
    assert S.At(s + t, k);
  }

  lemma FreshSpelled(prefix: string, name: string, used: set<string>)
    requires S.IsSkolem(prefix + name)
    ensures S.IsSkolem(Fresh(prefix, name, used))
  {
    hide S.IsSkolem, Suffixed;
    var thing := prefix + name;
    if Fresh(prefix, name, used) != thing {
      var k: nat :| Fresh(prefix, name, used) == Suffixed(thing, k);
      SuffixedSpelled(thing, k);
    }
  }

  lemma SuffixedSpelled(s: string, k: nat)
    requires S.IsSkolem(s)
    ensures S.IsSkolem(Suffixed(s, k))
  {
    hide S.IsSkolem, Suffix;
    SkolemExtended(s, "_" + Suffix(k));
    assert s + ("_" + Suffix(k)) == Suffixed(s, k);
  }

  lemma Underscored(p: string, s: string)
    requires |p| >= 2 && p[0] == '_' && p[1] == '_'
    ensures S.IsSkolem(p + s)
  {
    assert S.At(p + s, 0);
  }

  lemma FlagSpelled(used: set<string>)
    ensures WellSpelled(FreshBool(used))
  {
    Underscored("__ts0", "");
    FreshSpelled("__ts0", "", used);
  }

  lemma {:induction false} RenameAllSpelled(prefix: string, xs: seq<Sym>, used: set<string>)
    requires forall x :: x in xs ==> S.IsSkolem(prefix + Spell(x))
    ensures forall x :: x in RenameAll(prefix, xs, used).m ==> WellSpelled(RenameAll(prefix, xs, used).m[x])
  {
    hide Fresh, Apart;
    if xs != [] {
      var n := |xs| - 1;
      RenameAllSpelled(prefix, xs[..n], used);
      assert xs[n] in xs;
      FreshSpelled(prefix, Spell(xs[n]), RenameAll(prefix, xs[..n], used).used);
    }
  }

  lemma PrefixSpelled(prefix: string, xs: seq<Sym>, used: set<string>)
    requires |prefix| >= 2 && prefix[0] == '_' && prefix[1] == '_'
    ensures forall x :: x in RenameAll(prefix, xs, used).m ==> WellSpelled(RenameAll(prefix, xs, used).m[x])
  {
    hide RenameAll;
    forall x | x in xs
      ensures S.IsSkolem(prefix + Spell(x))
    {
      Underscored(prefix, Spell(x));
    }
    RenameAllSpelled(prefix, xs, used);
  }

  predicate Distinct(xs: seq<Sym>)
  {
    forall i, j :: 0 <= i < j < |xs| ==> xs[i] != xs[j]
  }

  lemma {:induction false} SkolemsOnce(xs: seq<Sym>)
    ensures Distinct(Skolems(xs))
  {
    if xs != [] { SkolemsOnce(xs[..|xs| - 1]); }
  }

  function ValueNames(m: Renaming): set<string>
  {
    set x | x in m :: m[x].id.name
  }

  lemma FreshKeeps(name: string, used: set<string>)
    requires name != ""
    ensures Fresh("", name, used) == name || name in used
  {
    assert "" + name == name;
  }

  lemma ValueNamesMore(m: Renaming, x: Sym, y: Sym)
    requires x !in m
    ensures ValueNames(m[x := y]) == ValueNames(m) + {y.id.name}
  {
    var r := m[x := y];
    assert forall z :: z in m ==> z in r && r[z] == m[z];
    assert r[x] == y;
  }

  lemma DistinctLast(xs: seq<Sym>)
    requires Distinct(xs) && xs != []
    ensures Distinct(xs[..|xs| - 1]) && xs[|xs| - 1] !in xs[..|xs| - 1]
  {
  }

  lemma RenameAllLast(prefix: string, xs: seq<Sym>, used: set<string>)
    requires xs != []
    ensures var x, r := xs[|xs| - 1], RenameAll(prefix, xs[..|xs| - 1], used);
            var name := Fresh(prefix, Spell(x), r.used);
            RenameAll(prefix, xs, used) == Renamer(r.m[x := Sym(Skolem, Id(name, x.id.arity))], r.used + {name})
  {
    hide Fresh, Apart;
  }

  /** A renaming without prefix keeps a name unless it is used already, or has been given to another symbol. */
  lemma {:induction false} RenameAllKeys(xs: seq<Sym>, used: set<string>)
    requires Distinct(xs) && forall x :: x in xs ==> Spell(x) != ""
    ensures var r := RenameAll("", xs, used);
            && r.used == used + ValueNames(r.m)
            && forall x :: x in xs ==> Spell(x) in used + ValueNames(r.m)
  {
    hide Fresh, Apart, Distinct, RenameAll, ValueNames;
    if xs == [] {
      NoneKept(used);
    } else {
      var n := |xs| - 1;
      var x := xs[n];
      var before := RenameAll("", xs[..n], used);
      DistinctLast(xs);
      RenameAllLast("", xs, used);
      RenameAllKeys(xs[..n], used);
      var name := Fresh("", Spell(x), before.used);
      assert x in xs;
      FreshKeeps(Spell(x), before.used);
      ValueNamesMore(before.m, x, Sym(Skolem, Id(name, x.id.arity)));
      assert xs == xs[..n] + [x];
    }
  }

  lemma NoneKept(used: set<string>)
    ensures RenameAll("", [], used) == Renamer(map[], used) && ValueNames(map[]) == {}
  {
  }

  lemma DistinctKeys(c: Clauses, d: Clauses, x: Sym)
    requires x in DistinctMap(c, d) && AllSpelled(Used(c))
    ensures Spell(x) in UsedNames(d) + ValueNames(DistinctMap(c, d))
  {
    hide RenameAll;
    OrderedUsedSyms(c);
    var xs := Skolems(OrderedUsed(c));
    SkolemsOnce(OrderedUsed(c));
    forall y | y in xs
      ensures Spell(y) != ""
    {
      assert WellSpelled(y);
      var k :| 0 <= k < |y.id.name| && S.At(y.id.name, k);
    }
    RenameAllKeys(xs, UsedNames(d));
  }

  lemma DistinctSpelled(c: Clauses, d: Clauses)
    requires AllSpelled(Used(c))
    ensures forall x :: x in DistinctMap(c, d) ==> WellSpelled(DistinctMap(c, d)[x])
  {
    hide RenameAll;
    OrderedUsedSyms(c);
    var xs := Skolems(OrderedUsed(c));
    forall y | y in xs
      ensures S.IsSkolem("" + Spell(y))
    {
      assert WellSpelled(y);
      assert "" + Spell(y) == Spell(y);
    }
    RenameAllSpelled("", xs, UsedNames(d));
  }

  // ----- the names in an update -----

  predicate PlainIds(ids: seq<Id>)
  {
    forall i :: i in ids ==> PlainName(i.name)
  }

  /** The transition formula and the modified symbols are well spelled. */
  predicate Spelled(u: Update)
  {
    AllSpelled(Used(u.tr)) && PlainIds(u.mod)
  }

  predicate PlainExpr(e: Expr)
  {
    forall x :: x in Syms(e) ==> PlainName(x.id.name)
  }

  predicate PlainTargets(target: Target)
  {
    PlainName(target.x.name) && forall e :: e in target.args ==> PlainExpr(e)
  }

  /** No program symbol of the action has a name that looks existential. */
  predicate PlainAction(a: Action)
  {
    match a
    case Assume(f) => PlainExpr(f)
    case Assert(f) => PlainExpr(f)
    case Assign(target, rhs) => PlainTargets(target) && PlainExpr(rhs)
    case Havoc(target) => PlainTargets(target)
    case Sequence(es) => forall e :: e in es ==> PlainAction(e)
    case Choice(bs) => forall b :: b in bs ==> PlainAction(b)
    case If(c, thn, els) => PlainExpr(c) && PlainAction(thn) && PlainAction(els)
    case Local(_, body) => PlainAction(body)
    case BindOldsAction(inner) => PlainAction(inner)
    case IfSome(some, thn, els) =>
      PlainExpr(some.f) && PlainExpr(some.index) && PlainAction(thn) && PlainAction(els)
    case _ => true
  }

  lemma PlainSyms(e: Expr, es: set<Sym>)
    requires Syms(e) <= es && forall x :: x in es ==> PlainName(x.id.name)
    ensures PlainExpr(e)
  {
    hide PlainName;
  }

  /** The formulas of the parts of "if some" use no other symbols. */
  lemma PartSyms(some: SomeCond)
    ensures Syms(SomeFormula(some)) <= Syms(some.f) + Syms(some.index)
    ensures Syms(NoneFormula(some)) <= Syms(some.f)
  {
    SubSymsOf(some.f, some.params);
    SubSymsOf(some.index, some.params);
    hide SubstConsts, ParamSub;
    var sf := SubstConsts(some.f, ParamSub(some.params));
    var j := SubstConsts(some.index, ParamSub(some.params));
    ComparedSyms(some.f, sf, some.index, j);
    ComparedSyms(some.f, sf, j, some.index);
  }

  lemma ComparedSyms(f: Expr, sf: Expr, a: Expr, b: Expr)
    ensures Syms(Conj2(f, Not(Conj2(sf, Conj2(Leq(a, b), Not(Op(Equals, a, b))))))) <=
            Syms(f) + Syms(sf) + Syms(a) + Syms(b)
    ensures Syms(Conj2(f, Implies(sf, Not(Op(Less, a, b))))) <= Syms(f) + Syms(sf) + Syms(a) + Syms(b)
  {
    OpSyms(Less, a, b);
    OpSyms(Less, b, a);
    OpSyms(Equals, a, b);
    var strict := Conj2(Leq(a, b), Not(Op(Equals, a, b)));
    OpSyms(Conj, Leq(a, b), Not(Op(Equals, a, b)));
    OpSyms(Conj, sf, strict);
    OpSyms(Conj, f, Not(Conj2(sf, strict)));
    OpSyms(Disj, Not(sf), Not(Op(Less, a, b)));
    OpSyms(Conj, f, Implies(sf, Not(Op(Less, a, b))));
    hide Syms;
  }

  lemma OpSyms(op: BinOp, l: Expr, r: Expr)
    ensures Syms(Op(op, l, r)) == Syms(l) + Syms(r)
    ensures Syms(Not(Op(op, l, r))) == Syms(l) + Syms(r) && Syms(Not(l)) == Syms(l)
  {
  }

  lemma PlainIfPart(a: Action)
    requires a.IfSome? && PlainAction(a)
    ensures PlainAction(IfPart(a.some, a.thn)) && PlainAction(ElsePart(a.some, a.els))
  {
    hide Syms, PlainName, SomeFormula, NoneFormula;
    PartSyms(a.some);
    PlainSyms(SomeFormula(a.some), Syms(a.some.f) + Syms(a.some.index));
    PlainSyms(NoneFormula(a.some), Syms(a.some.f));
    PlainPair(Assume(SomeFormula(a.some)), a.thn);
    PlainPair(Assume(NoneFormula(a.some)), a.els);
  }

  lemma PlainPair(a: Action, b: Action)
    requires PlainAction(a) && PlainAction(b)
    ensures PlainAction(Sequence([a, b]))
  {
    hide PlainExpr;
  }

  lemma ExprSpelled(e: Expr)
    requires StateExpr(e) && PlainExpr(e)
    ensures AllSpelled(Syms(e))
  {
  }

  lemma AssumeSpelled(f: Expr)
    requires Core(Assume(f)) && PlainExpr(f)
    ensures Spelled(AssumeUpdate(f))
  {
    hide S.IsSkolem;
    ExprSpelled(f);
    MatrixFacts(f);
    var sub := SkolemSub(Leading(f));
    SubstSyms(Matrix(f), sub);
    forall y | y in SubSyms(sub)
      ensures WellSpelled(y)
    {
      var x :| x in sub && y in Syms(sub[x]);
      ConstSyms(Sym(Skolem, Id("__sk__" + x, 0)));
      Underscored("__sk__", x);
    }
  }

  lemma ConstSyms(y: Sym)
    ensures Syms(App(y, [])) == {y}
  {
  }

  lemma HoleSyms(f: Sym, p: string, n: nat)
    ensures Syms(App(f, Holes(p, n))) == {f}
  {
    NoSymsInHoles(Holes(p, n));
  }

  lemma {:induction false} CondsSpelled(p: string, args: seq<Expr>)
    requires forall e :: e in args ==> StateExpr(e) && PlainExpr(e)
    ensures AllSpelled(Syms(IndexConds(p, args)))
  {
    if args != [] {
      var n := |args| - 1;
      CondsSpelled(p, args[..n]);
      assert args[n] in args;
      ExprSpelled(args[n]);
      if !args[n].Var? {
        assert Syms(IndexEq(p, args, n)) == Syms(args[n]);
        assert Syms(IndexConds(p, args)) == Syms(IndexConds(p, args[..n])) + Syms(IndexEq(p, args, n));
      }
    }
  }

  lemma BothSpelled(op: BinOp, l: Expr, r: Expr)
    requires AllSpelled(Syms(l)) && AllSpelled(Syms(r))
    ensures AllSpelled(Syms(Op(op, l, r)))
  {
  }

  lemma IteSpelled(c: Expr, t: Expr, e: Expr)
    requires AllSpelled(Syms(c)) && AllSpelled(Syms(t)) && AllSpelled(Syms(e))
    ensures AllSpelled(Syms(Ite(c, t, e)))
  {
  }

  lemma AssignSpelled(target: Target, rhs: Expr)
    requires Core(Assign(target, rhs)) && PlainTargets(target) && PlainExpr(rhs)
    ensures Spelled(AssignUpdate(target, rhs))
  {
    var sub := IndexSub("V", target.args);
    var drhs := SubstExpr(rhs, sub);
    ExprSpelled(rhs);
    IndexSubSyms("V", target.args);
    SubstSyms(rhs, sub);
    CondsSpelled("V", target.args);
    HoleSyms(NewSym(target.x), "V", |target.args|);
    HoleSyms(BaseSym(target.x), "V", |target.args|);
    hide SubstExpr, IndexConds, IndexSub, Holes, NoCapture, PlainName, Closed;
    var left, kept := App(NewSym(target.x), Holes("V", |target.args|)),
      App(BaseSym(target.x), Holes("V", |target.args|));
    IteSpelled(IndexConds("V", target.args), drhs, kept);
    var value := if HasIndex(target.args) then Ite(IndexConds("V", target.args), drhs, kept) else drhs;
    BothSpelled(Equals, left, value);
    assert AssignExpr(target, rhs) == Op(Equals, left, value);
  }

  lemma {:induction false} HavocSpelled(x: Id, args: seq<Expr>, m: nat)
    requires m <= |args| && PlainName(x.name) && forall e :: e in args ==> StateExpr(e) && PlainExpr(e)
    ensures AllSpelled(Syms(HavocConds(x, args, m)))
  {
    if m > 0 {
      HavocSpelled(x, args, m - 1);
      assert args[m - 1] in args;
      ExprSpelled(args[m - 1]);
      var vs := Holes("X", |args|);
      HoleSyms(NewSym(x), "X", |args|);
      HoleSyms(BaseSym(x), "X", |args|);
      assert Syms(IndexEq("X", args, m - 1)) == Syms(args[m - 1]);
      hide Holes, PlainName, IndexEq;
      var eq := Op(Equals, App(NewSym(x), vs), App(BaseSym(x), vs));
      BothSpelled(Equals, App(NewSym(x), vs), App(BaseSym(x), vs));
      if !args[m - 1].Var? {
        BothSpelled(Disj, eq, IndexEq("X", args, m - 1));
        BothSpelled(Conj, HavocConds(x, args, m - 1), Op(Disj, eq, IndexEq("X", args, m - 1)));
      }
    }
  }

  lemma RenamedSpelled(c: Clauses, m: Renaming)
    requires forall x :: x in Used(c) ==> WellSpelled(Lookup(m, x))
    ensures AllSpelled(Used(Rename(c, m)))
  {
    hide WellSpelled;
    RenameUsed(c, m);
  }

  lemma MidSpelled(u1: Update, u2: Update)
    ensures forall x :: x in MidMap(u1, u2) ==> WellSpelled(MidMap(u1, u2)[x])
  {
    hide RenameAll, Apart, WellSpelled;
    PrefixSpelled("__m_", BaseSyms(Select(u1.mod, u2.mod, true)), MidUsed(u1, u2));
  }

  lemma JoinedIds(a: seq<Id>, b: seq<Id>)
    requires PlainIds(a) && PlainIds(b)
    ensures PlainIds(UpdatedJoin(a, b)) && PlainIds(Select(b, a, false))
  {
    hide PlainName;
  }

  lemma ComposeSpelled(u1: Update, u2: Update)
    requires Spelled(u1) && Spelled(u2)
    ensures Spelled(Compose(u1, u2))
  {
    hide Used, Rename, Apart, PlainName, MidMap, DistinctMap, Or, DiffFrame, And;
    var mm := MidMap(u1, u2);
    var rd := DistinctMap(u2.tr, u1.tr);
    MidSpelled(u1, u2);
    DistinctSpelled(u2.tr, u1.tr);
    MidNewSpelled(u1, mm);
    var tr2 := Rename(u2.tr, rd);
    RenamedSpelled(u2.tr, rd) by {
      forall x | x in Used(u2.tr)
        ensures WellSpelled(Lookup(rd, x))
      {
        if x in rd { LookupIn(rd, x); } else { LookupOut(rd, x); }
      }
    }
    MidBaseSpelled(u1, mm, tr2);
    AndUsed(Rename(u1.tr, MidNew(u1.mod, mm)), Rename(tr2, MidBase(u1.mod, mm)));
    JoinedIds(u1.mod, u2.mod);
  }

  lemma MidNewSpelled(u: Update, mm: Renaming)
    requires Spelled(u) && forall x :: x in mm ==> WellSpelled(mm[x])
    ensures AllSpelled(Used(Rename(u.tr, MidNew(u.mod, mm))))
  {
    hide Used, Rename;
    forall x | x in Used(u.tr)
      ensures WellSpelled(Lookup(MidNew(u.mod, mm), x))
    {
      LookupMidNew(u.mod, mm, x);
    }
    RenamedSpelled(u.tr, MidNew(u.mod, mm));
  }

  lemma MidBaseSpelled(u: Update, mm: Renaming, c: Clauses)
    requires PlainIds(u.mod) && AllSpelled(Used(c)) && forall x :: x in mm ==> WellSpelled(mm[x])
    ensures AllSpelled(Used(Rename(c, MidBase(u.mod, mm))))
  {
    hide Used, Rename;
    forall x | x in Used(c)
      ensures WellSpelled(Lookup(MidBase(u.mod, mm), x))
    {
      LookupMidBase(u.mod, mm, x);
    }
    RenamedSpelled(c, MidBase(u.mod, mm));
  }

  lemma FramesSpelled(c: Clauses, a: seq<Id>, b: seq<Id>)
    requires AllSpelled(Used(c)) && PlainIds(a) && PlainIds(b)
    ensures AllSpelled(Used(And(c, DiffFrame(a, b))))
  {
    hide Used;
    JoinedIds(a, b);
    FramesUsed(Select(b, a, false));
    AndUsed(c, DiffFrame(a, b));
  }

  lemma OrSpelled(c: Clauses, d: Clauses)
    requires AllSpelled(Used(c)) && AllSpelled(Used(d))
    ensures AllSpelled(Used(Or(c, d)))
  {
    hide Used, IsFalse, WellSpelled, FreshBool;
    var a := FreshBool(UsedNames(c) + UsedNames(d));
    var b := FreshBool(UsedNames(c) + UsedNames(d) + {Spell(a)});
    FlagSpelled(UsedNames(c) + UsedNames(d));
    FlagSpelled(UsedNames(c) + UsedNames(d) + {Spell(a)});
    BranchUsed(a, c, b, d);
    assert Used(BOT) == {} by { BotUsed(); }
  }

  lemma BotUsed()
    ensures Used(BOT) == {}
  {
  }

  lemma JoinSpelled(u1: Update, u2: Update)
    requires Spelled(u1) && Spelled(u2)
    ensures Spelled(Join(u1, u2))
  {
    hide Used, Or, And, DiffFrame, PlainName, WellSpelled;
    FramesSpelled(u1.tr, u1.mod, u2.mod);
    FramesSpelled(u2.tr, u2.mod, u1.mod);
    OrSpelled(And(u1.tr, DiffFrame(u1.mod, u2.mod)), And(u2.tr, DiffFrame(u2.mod, u1.mod)));
    JoinedIds(u1.mod, u2.mod);
  }

  lemma IteActionSpelled(cond: Expr, u1: Update, u2: Update)
    requires Spelled(u1) && Spelled(u2) && AllSpelled(Syms(cond))
    ensures Spelled(IteAction(cond, u1, u2))
  {
    hide Used, And, DiffFrame, PlainName, WellSpelled, FreshBool, Guarded, IsFalse;
    var c, d := And(u1.tr, DiffFrame(u1.mod, u2.mod)), And(u2.tr, DiffFrame(u2.mod, u1.mod));
    FramesSpelled(u1.tr, u1.mod, u2.mod);
    FramesSpelled(u2.tr, u2.mod, u1.mod);
    var used := UsedNames(c) + UsedNames(d) + SymNames(cond);
    FlagSpelled(used);
    GuardedUsed(FreshBool(used), cond, c, d);
    JoinedIds(u1.mod, u2.mod);
  }

  lemma HideSpelled(xs: seq<Id>, u: Update)
    requires Spelled(u)
    ensures Spelled(Hide(xs, u))
  {
    hide Used, Rename, RenameAll, PlainName;
    var m := HideMap(xs, u.mod, u.tr);
    PrefixSpelled("__", HiddenSyms(xs, u.mod), UsedNames(u.tr));
    forall x | x in Used(u.tr)
      ensures WellSpelled(Lookup(m, x))
    {
      if x in m { LookupIn(m, x); } else { LookupOut(m, x); }
    }
    RenamedSpelled(u.tr, m);
  }

  lemma BindSpelled(u: Update)
    requires Spelled(u)
    ensures Spelled(BindOlds(u))
  {
    hide Used, Rename, PlainName;
    var m := OldMap(u.tr);
    forall x | x in Used(u.tr)
      ensures WellSpelled(Lookup(m, x))
    {
      if x in m { LookupIn(m, x); } else { LookupOut(m, x); }
    }
    RenamedSpelled(u.tr, m);
  }

  lemma {:induction false} UpdateSpelled(a: Action)
    requires Core(a) && PlainAction(a)
    ensures Spelled(IntUpdate(a))
    decreases Size(a), 0
  {
    assert Core(a) && (a.While? || a.Call?) ==> !CoreAtom(a);
    hide Spelled, PlainExpr, PlainName, StateExpr, Closed, NoCapture, AssumeUpdate, AssignUpdate, Compose, Hide,
      BindOlds, IteAction, Join, SomeOk, IfPart, ElsePart;
    match a
    case Assume(f) => AssumeSpelled(f);
    case Assert(f) => TopSpelled(AssertUpdate(f));
    case Assign(target, rhs) => AssignSpelled(target, rhs);
    case Havoc(target) => HavocUpdateSpelled(target);
    case Sequence(es) => SequenceSpelled(es);
    case Choice(bs) => ChoiceSpelled(bs);
    case If(c, thn, els) =>
      UpdateSpelled(thn); UpdateSpelled(els);
      ExprSpelled(c);
      IteActionSpelled(c, IntUpdate(thn), IntUpdate(els));
    case Local(xs, body) => UpdateSpelled(body); HideSpelled(xs, IntUpdate(body));
    case BindOldsAction(inner) => UpdateSpelled(inner); BindSpelled(IntUpdate(inner));
    case IfSome(some, thn, els) =>
      CoreIfPart(some, thn, els);
      PlainIfPart(a);
      UpdateSpelled(IfPart(some, thn)); UpdateSpelled(ElsePart(some, els));
      JoinSpelled(IntUpdate(IfPart(some, thn)), IntUpdate(ElsePart(some, els)));
  }

  lemma TopSpelled(u: Update)
    requires u.mod == [] && (u.tr == TOP || u.tr == BOT)
    ensures Spelled(u)
  {
  }

  lemma HavocUpdateSpelled(target: Target)
    requires Core(Havoc(target)) && PlainTargets(target)
    ensures Spelled(HavocUpdate(target))
  {
    hide HavocConds, PlainName;
    HavocSpelled(target.x, target.args, |target.args|);
  }

  lemma {:induction false} SequenceSpelled(es: seq<Action>)
    requires forall e :: e in es ==> Core(e) && PlainAction(e)
    ensures Spelled(ComposeAll(es))
    decreases SizeAll(es), 1
  {
    hide Spelled, Core, PlainAction, Compose, IntUpdate;
    if es == [] {
      TopSpelled(NullUpdate());
    } else {
      var n := |es| - 1;
      assert es[n] in es;
      SequenceSpelled(es[..n]);
      UpdateSpelled(es[n]);
      ComposeSpelled(ComposeAll(es[..n]), IntUpdate(es[n]));
    }
  }

  lemma {:induction false} ChoiceSpelled(bs: seq<Action>)
    requires forall b :: b in bs ==> Core(b) && PlainAction(b)
    ensures Spelled(JoinAll(bs))
    decreases SizeAll(bs), 1
  {
    hide Spelled, Core, PlainAction, Join, IntUpdate;
    if bs == [] {
      TopSpelled(Update([], BOT, BOT));
    } else {
      var n := |bs| - 1;
      assert bs[n] in bs;
      ChoiceSpelled(bs[..n]);
      UpdateSpelled(bs[n]);
      JoinSpelled(JoinAll(bs[..n]), IntUpdate(bs[n]));
    }
  }

  // ----- what the annotation of clauses asks and enters -----

  /** The flags asked are existential symbols of the clauses. */
  ghost predicate AsksUsed(c: Clauses, n: W.Annot, scope: Renaming, eval: Sym -> bool)
  {
    forall x :: x in W.Asked(n, scope, eval) ==> x in Used(c) && x.kind.Skolem?
  }

  /** The existential symbols entered have names that the clauses use. */
  ghost predicate EntersUsed(c: Clauses, n: W.Annot, scope: Renaming, eval: Sym -> bool)
  {
    forall x :: x in W.Bound(n, scope, eval) && x.kind.Skolem? ==> WellSpelled(x) && Spell(x) in UsedNames(c)
  }

  /** The annotation of a transition formula, as the answers lead through it. */
  ghost predicate Neat(c: Clauses, n: W.Annot, scope: Renaming, eval: Sym -> bool)
  {
    AsksUsed(c, n, scope, eval) && EntersUsed(c, n, scope, eval) && W.Tidy(n, scope, eval)
  }

  ghost predicate NeatFailure(c: Clauses, n: W.Annot, scope: Renaming, eval: Sym -> bool)
  {
    AsksUsed(c, n, scope, eval) && W.Tidy(n, scope, eval)
  }

  lemma NeatMore(c: Clauses, d: Clauses, n: W.Annot, scope: Renaming, eval: Sym -> bool)
    requires Used(c) <= Used(d)
    ensures AsksUsed(c, n, scope, eval) ==> AsksUsed(d, n, scope, eval)
    ensures EntersUsed(c, n, scope, eval) ==> EntersUsed(d, n, scope, eval)
  {
    hide WellSpelled, Used, UsedNames, W.Asked, W.Bound;
    NamesMore(c, d);
  }

  /** A renaming of program symbols only. */
  predicate OfProgram(m: Renaming)
  {
    forall x :: x in m ==> Program(x)
  }

  /** The sets of a renamed annotation, empty renamings included. */
  lemma RenamedSets(n: W.Annot, m: Renaming, scope: Renaming, eval: Sym -> bool)
    ensures W.Asked(Renamed(n, m), scope, eval) == Image(m, W.Asked(n, W.Entered(scope, m), eval))
    ensures W.Bound(Renamed(n, m), scope, eval) == m.Keys + W.Bound(n, W.Entered(scope, m), eval)
    ensures W.Tidy(Renamed(n, m), scope, eval) <==> W.Tidy(n, W.Entered(scope, m), eval)
  {
    if m == map[] {
      EnteredNothing(scope);
      assert forall x :: Lookup(m, x) == x;
    }
  }

  lemma ProgramRenamed(c: Clauses, m: Renaming, x: Sym)
    requires OfProgram(m) && x in Used(c) && !Program(x)
    ensures x in Used(Rename(c, m))
  {
    hide Used, Rename;
    RenameUsed(c, m);
    LookupOut(m, x);
    assert Lookup(m, x) in Image(m, Used(c));
  }

  /** A name that looks existential survives a renaming of program symbols. */
  lemma NameSurvives(c: Clauses, m: Renaming, x: Sym)
    requires OfProgram(m) && AllSpelled(Used(c)) && WellSpelled(x) && !Program(x) && Spell(x) in UsedNames(c)
    ensures Spell(x) in UsedNames(Rename(c, m))
  {
    hide Used, Rename, WellSpelled;
    var y :| y in Used(c) && Spell(y) == Spell(x);
    SpelledAlike(x, y);
    ProgramRenamed(c, m, y);
  }

  lemma AsksRenamed(c: Clauses, m: Renaming, n: W.Annot, scope: Renaming, eval: Sym -> bool)
    requires OfProgram(m) && AsksUsed(c, n, W.Entered(scope, m), eval)
    ensures AsksUsed(Rename(c, m), Renamed(n, m), scope, eval)
  {
    hide Used, Rename, W.Asked, W.Entered, Renamed;
    RenamedSets(n, m, scope, eval);
    forall x | x in W.Asked(Renamed(n, m), scope, eval)
      ensures x in Used(Rename(c, m)) && x.kind.Skolem?
    {
      var y :| y in W.Asked(n, W.Entered(scope, m), eval) && x == Lookup(m, y);
      LookupOut(m, y);
      ProgramRenamed(c, m, y);
    }
  }

  lemma EntersRenamed(c: Clauses, m: Renaming, n: W.Annot, scope: Renaming, eval: Sym -> bool)
    requires OfProgram(m) && AllSpelled(Used(c)) && EntersUsed(c, n, W.Entered(scope, m), eval)
    ensures EntersUsed(Rename(c, m), Renamed(n, m), scope, eval)
  {
    hide Used, Rename, W.Bound, W.Entered, Renamed, WellSpelled;
    RenamedSets(n, m, scope, eval);
    forall x | x in W.Bound(Renamed(n, m), scope, eval) && x.kind.Skolem?
      ensures WellSpelled(x) && Spell(x) in UsedNames(Rename(c, m))
    {
      assert x !in m;
      NameSurvives(c, m, x);
    }
  }

  // ----- links -----

  lemma MidOfProgram(mod: seq<Id>, mm: Renaming)
    ensures OfProgram(MidNew(mod, mm)) && OfProgram(MidBase(mod, mm))
  {
  }

  /** Renamed apart, the flags asked are new to the clauses before. */
  lemma AsksDistinct(c: Clauses, d: Clauses, n: W.Annot, scope: Renaming, eval: Sym -> bool)
    requires AsksUsed(c, n, W.Entered(scope, DistinctMap(c, d)), eval)
    ensures AsksUsed(Rename(c, DistinctMap(c, d)), Renamed(n, DistinctMap(c, d)), scope, eval)
    ensures forall x :: x in W.Asked(Renamed(n, DistinctMap(c, d)), scope, eval) ==> Spell(x) !in UsedNames(d)
  {
    hide Used, Rename, W.Asked, W.Entered, Renamed, DistinctMap;
    var m := DistinctMap(c, d);
    RenamedSets(n, m, scope, eval);
    RenameUsed(c, m);
    forall x | x in W.Asked(Renamed(n, m), scope, eval)
      ensures x in Used(Rename(c, m)) && x.kind.Skolem? && Spell(x) !in UsedNames(d)
    {
      var y :| y in W.Asked(n, W.Entered(scope, m), eval) && x == Lookup(m, y);
      LookupIn(m, y);
      assert x in Image(m, Used(c));
    }
  }

  lemma ValuesUsed(c: Clauses, d: Clauses)
    ensures ValueNames(DistinctMap(c, d)) <= UsedNames(Rename(c, DistinctMap(c, d)))
  {
    hide Used, Rename, DistinctMap;
    var m := DistinctMap(c, d);
    RenameUsed(c, m);
    forall name | name in ValueNames(m)
      ensures name in UsedNames(Rename(c, m))
    {
      var x :| x in m && m[x].id.name == name;
      LookupIn(m, x);
      assert Lookup(m, x) in Image(m, Used(c));
      assert Spell(m[x]) == name;
    }
  }

  /** Renamed apart, the names entered are still used, by these clauses or by those before. */
  lemma EntersDistinct(c: Clauses, d: Clauses, n: W.Annot, scope: Renaming, eval: Sym -> bool, x: Sym)
    requires AllSpelled(Used(c)) && NoRigid(c) && EntersUsed(c, n, W.Entered(scope, DistinctMap(c, d)), eval)
    requires x in W.Bound(Renamed(n, DistinctMap(c, d)), scope, eval) && x.kind.Skolem?
    ensures WellSpelled(x) && Spell(x) in UsedNames(d) + UsedNames(Rename(c, DistinctMap(c, d)))
  {
    hide Used, Rename, W.Bound, W.Entered, Renamed, DistinctMap, WellSpelled;
    var m := DistinctMap(c, d);
    RenamedSets(n, m, scope, eval);
    ValuesUsed(c, d);
    if x in m {
      DistinctKeys(c, d, x);
    } else {
      var y :| y in Used(c) && Spell(y) == Spell(x);
      SpelledAlike(x, y);
      DistinctKeys(c, d, y);
    }
  }

  /** The clauses of a link, and what it asks and enters. */
  lemma LinkAsks(tr: Clauses, c: Clauses, n: W.Annot, n': W.Annot, mod: seq<Id>, mm: Renaming,
                 scope: Renaming, eval: Sym -> bool)
    requires var rd := DistinctMap(c, tr);
             && AsksUsed(tr, n, W.Entered(scope, MidNew(mod, mm)), eval)
             && AsksUsed(c, n', W.Entered(W.Entered(scope, MidBase(mod, mm)), rd), eval)
             && !IsFalse(Link(tr, Rename(c, rd), mod, mm))
    ensures AsksUsed(Link(tr, Rename(c, DistinctMap(c, tr)), mod, mm), LinkNote(n, n', DistinctMap(c, tr), mod, mm),
                     scope, eval)
    ensures forall x :: x in W.Asked(Renamed(Renamed(n', DistinctMap(c, tr)), MidBase(mod, mm)), scope, eval) ==>
              x.kind.Skolem? && Spell(x) !in UsedNames(tr)
  {
    hide Used, Rename, W.Asked, W.Entered, Renamed, DistinctMap, MidNew, MidBase, AsksUsed, IsFalse;
    var rd, p, q := DistinctMap(c, tr), MidNew(mod, mm), MidBase(mod, mm);
    var link := Link(tr, Rename(c, rd), mod, mm);
    MidOfProgram(mod, mm);
    AsksRenamed(tr, p, n, scope, eval);
    AsksDistinct(c, tr, n', W.Entered(scope, q), eval);
    AsksRenamed(Rename(c, rd), q, Renamed(n', rd), scope, eval);
    LinkParts(tr, c, rd, mod, mm);
    NeatMore(Rename(tr, p), link, Renamed(n, p), scope, eval);
    NeatMore(Rename(Rename(c, rd), q), link, Renamed(Renamed(n', rd), q), scope, eval);
    AsksBoth(link, Renamed(n, p), Renamed(Renamed(n', rd), q), scope, eval);
    AskedApart(Rename(c, rd), tr, Renamed(n', rd), q, scope, eval);
  }

  lemma LinkParts(tr: Clauses, c: Clauses, rd: Renaming, mod: seq<Id>, mm: Renaming)
    requires !IsFalse(Link(tr, Rename(c, rd), mod, mm))
    ensures var link := Link(tr, Rename(c, rd), mod, mm);
            Used(link) == Used(Rename(tr, MidNew(mod, mm))) + Used(Rename(Rename(c, rd), MidBase(mod, mm)))
  {
    hide Rename, MidNew, MidBase;
  }

  lemma AsksBoth(c: Clauses, n: W.Annot, n': W.Annot, scope: Renaming, eval: Sym -> bool)
    requires AsksUsed(c, n, scope, eval) && AsksUsed(c, n', scope, eval)
    ensures AsksUsed(c, W.Compose(n, n'), scope, eval)
  {
    hide Used;
  }

  lemma AskedApart(c: Clauses, d: Clauses, n: W.Annot, q: Renaming, scope: Renaming, eval: Sym -> bool)
    requires OfProgram(q) && AsksUsed(c, n, W.Entered(scope, q), eval)
    requires forall x :: x in W.Asked(n, W.Entered(scope, q), eval) ==> Spell(x) !in UsedNames(d)
    ensures forall x :: x in W.Asked(Renamed(n, q), scope, eval) ==> x.kind.Skolem? && Spell(x) !in UsedNames(d)
  {
    hide Used, W.Asked, W.Entered, Renamed;
    RenamedSets(n, q, scope, eval);
    forall x | x in W.Asked(Renamed(n, q), scope, eval)
      ensures x.kind.Skolem? && Spell(x) !in UsedNames(d)
    {
      var y :| y in W.Asked(n, W.Entered(scope, q), eval) && x == Lookup(q, y);
      LookupOut(q, y);
    }
  }

  lemma LinkTidy(tr: Clauses, c: Clauses, n: W.Annot, n': W.Annot, mod: seq<Id>, mm: Renaming,
                 scope: Renaming, eval: Sym -> bool)
    requires var rd := DistinctMap(c, tr);
             && AllSpelled(Used(tr)) && Neat(tr, n, W.Entered(scope, MidNew(mod, mm)), eval)
             && NeatFailure(c, n', W.Entered(W.Entered(scope, MidBase(mod, mm)), rd), eval)
             && !IsFalse(Link(tr, Rename(c, rd), mod, mm))
    ensures NeatFailure(Link(tr, Rename(c, DistinctMap(c, tr)), mod, mm), LinkNote(n, n', DistinctMap(c, tr), mod, mm),
                        scope, eval)
  {
    hide Used, Rename, W.Asked, W.Entered, Renamed, DistinctMap, MidNew, MidBase, AsksUsed, IsFalse, Link, W.Bound,
      WellSpelled;
    var rd, p, q := DistinctMap(c, tr), MidNew(mod, mm), MidBase(mod, mm);
    LinkAsks(tr, c, n, n', mod, mm, scope, eval);
    MidOfProgram(mod, mm);
    RenamedSets(n, p, scope, eval);
    RenamedSets(n', rd, W.Entered(scope, q), eval);
    RenamedSets(Renamed(n', rd), q, scope, eval);
    forall x | x in W.Bound(Renamed(n, p), scope, eval)
      ensures x !in W.Asked(Renamed(Renamed(n', rd), q), scope, eval)
    {
    }
  }

  lemma LinkEnters(tr: Clauses, c: Clauses, n: W.Annot, n': W.Annot, mod: seq<Id>, mm: Renaming,
                   scope: Renaming, eval: Sym -> bool)
    requires AllSpelled(Used(tr)) && AllSpelled(Used(c)) && NoRigid(c)
    requires var rd := DistinctMap(c, tr);
             && EntersUsed(tr, n, W.Entered(scope, MidNew(mod, mm)), eval)
             && EntersUsed(c, n', W.Entered(W.Entered(scope, MidBase(mod, mm)), rd), eval)
             && !IsFalse(Link(tr, Rename(c, rd), mod, mm))
    ensures EntersUsed(Link(tr, Rename(c, DistinctMap(c, tr)), mod, mm), LinkNote(n, n', DistinctMap(c, tr), mod, mm),
                       scope, eval)
  {
    hide Used, Rename, W.Entered, Renamed, DistinctMap, MidNew, MidBase, IsFalse, W.Bound, WellSpelled, Link;
    var rd, p, q := DistinctMap(c, tr), MidNew(mod, mm), MidBase(mod, mm);
    var link := Link(tr, Rename(c, rd), mod, mm);
    MidOfProgram(mod, mm);
    LinkParts(tr, c, rd, mod, mm);
    EntersRenamed(tr, p, n, scope, eval);
    NeatMore(Rename(tr, p), link, Renamed(n, p), scope, eval);
    var right := Renamed(Renamed(n', rd), q);
    RenamedSets(Renamed(n', rd), q, scope, eval);
    DistinctAllSpelled(c, tr);
    forall x | x in W.Bound(right, scope, eval) && x.kind.Skolem?
      ensures WellSpelled(x) && Spell(x) in UsedNames(link)
    {
      assert x !in q;
      EntersDistinct(c, tr, n', W.Entered(scope, q), eval, x);
      if Spell(x) in UsedNames(tr) { NameSurvives(tr, p, x); } else { NameSurvives(Rename(c, rd), q, x); }
      NamesMore(Rename(tr, p), link);
      NamesMore(Rename(Rename(c, rd), q), link);
    }
    BoundBoth(Renamed(n, p), right, scope, eval);
  }

  lemma NamesMore(c: Clauses, d: Clauses)
    requires Used(c) <= Used(d)
    ensures UsedNames(c) <= UsedNames(d)
  {
    hide Used;
  }

  lemma BoundBoth(n: W.Annot, n': W.Annot, scope: Renaming, eval: Sym -> bool)
    ensures W.Bound(W.Compose(n, n'), scope, eval) == W.Bound(n, scope, eval) + W.Bound(n', scope, eval)
  {
  }

  lemma DistinctAllSpelled(c: Clauses, d: Clauses)
    requires AllSpelled(Used(c))
    ensures AllSpelled(Used(Rename(c, DistinctMap(c, d))))
  {
    hide Used, Rename, WellSpelled;
    var rd := DistinctMap(c, d);
    DistinctSpelled(c, d);
    forall x | x in Used(c)
      ensures WellSpelled(Lookup(rd, x))
    {
      if x in rd { LookupIn(rd, x); } else { LookupOut(rd, x); }
    }
    RenamedSpelled(c, rd);
  }

  // ----- disjunctions, conditionals and frames -----

  /** The part that is taken asks and enters no more than the whole. */
  ghost predicate PartNeat(enters: bool, c: Clauses, n: W.Annot, scope: Renaming, eval: Sym -> bool)
  {
    AsksUsed(c, n, scope, eval) && (enters ==> EntersUsed(c, n, scope, eval)) && W.Tidy(n, scope, eval)
  }

  lemma PartMore(enters: bool, c: Clauses, d: Clauses, n: W.Annot, scope: Renaming, eval: Sym -> bool)
    requires PartNeat(enters, c, n, scope, eval) && Used(c) <= Used(d)
    ensures PartNeat(enters, d, n, scope, eval)
  {
    hide AsksUsed, EntersUsed, Used, W.Tidy;
    NeatMore(c, d, n, scope, eval);
  }

  /** A conditional annotation whose flag, if it has one, is in the clauses. */
  lemma BranchNeat(enters: bool, c: Clauses, cond: W.Cond, thn: W.Annot, els: W.Annot, scope: Renaming,
                   eval: Sym -> bool)
    requires forall x :: x in W.Flags(cond) ==> x in Used(c) && x.kind.Skolem?
    requires PartNeat(enters, c, if W.Ask(eval, scope, cond) then thn else els, scope, eval)
    ensures PartNeat(enters, c, W.Branch(cond, thn, els), scope, eval)
  {
    hide Used, W.Ask, W.Flags, WellSpelled;
  }

  lemma FrameNeat(enters: bool, c: Clauses, a: seq<Id>, b: seq<Id>, n: W.Annot, scope: Renaming, eval: Sym -> bool,
                  v: Val)
    requires PartNeat(enters, c, n, scope, eval) && Holds(And(c, DiffFrame(a, b)), v)
    ensures PartNeat(enters, And(c, DiffFrame(a, b)), n, scope, eval)
  {
    hide PartNeat, DiffFrame, Holds;
    var d := And(c, DiffFrame(a, b));
    AndParts(c, DiffFrame(a, b), v);
    PartMore(enters, c, d, n, scope, eval);
  }

  lemma AndParts(c: Clauses, d: Clauses, v: Val)
    requires Holds(And(c, d), v)
    ensures Used(And(c, d)) == Used(c) + Used(d) && Holds(c, v)
  {
    AndMeaning(c, d, v);
    IsFalseNot(c, v);
    IsFalseNot(d, v);
  }

  lemma IsFalseNot(c: Clauses, v: Val)
    ensures Holds(c, v) ==> !IsFalse(c)
  {
    if IsFalse(c) { IsFalseMeaning(c, v); }
  }

  lemma OrNeat(enters: bool, c: Clauses, n: W.Annot, d: Clauses, n': W.Annot, scope: Renaming, eval: Sym -> bool,
               v: Val)
    requires Holds(Or(c, d), v) && Reads(scope, eval, v)
    requires if W.Ask(eval, scope, OrCond(c, d)) then PartNeat(enters, d, n', scope, eval)
             else PartNeat(enters, c, n, scope, eval)
    ensures PartNeat(enters, Or(c, d), OrNote(c, n, d, n'), scope, eval)
  {
    hide PartNeat, W.Ask, Holds, Reads, OrCond;
    OrTaken(c, d, v, scope, eval);
    OrParts(c, d, W.Ask(eval, scope, OrCond(c, d)), v);
    if W.Ask(eval, scope, OrCond(c, d)) {
      PartMore(enters, d, Or(c, d), n', scope, eval);
    } else {
      PartMore(enters, c, Or(c, d), n, scope, eval);
    }
    BranchNeat(enters, Or(c, d), OrCond(c, d), n', n, scope, eval);
  }

  lemma OrParts(c: Clauses, d: Clauses, second: bool, v: Val)
    requires Holds(Or(c, d), v) && Holds(if second then d else c, v)
    ensures if second then Used(d) <= Used(Or(c, d)) else Used(c) <= Used(Or(c, d))
    ensures forall x :: x in W.Flags(OrCond(c, d)) ==> x in Used(Or(c, d)) && x.kind.Skolem?
  {
    hide IsFalse, FreshBool;
    IsFalseNot(c, v);
    IsFalseNot(d, v);
    var a := FreshBool(UsedNames(c) + UsedNames(d));
    var b := FreshBool(UsedNames(c) + UsedNames(d) + {Spell(a)});
    BranchUsed(a, c, b, d);
  }

  lemma IteNeat(enters: bool, cond: Expr, c: Clauses, n: W.Annot, d: Clauses, n': W.Annot,
                scope: Renaming, eval: Sym -> bool, v: Val)
    requires Holds(IteClauses(cond, c, d), v) && ClosedCond(cond) && Reads(scope, eval, v)
    requires if Eval(cond, v, map[]) != 0 then PartNeat(enters, c, n, scope, eval)
             else PartNeat(enters, d, n', scope, eval)
    ensures PartNeat(enters, IteClauses(cond, c, d), IteNote(cond, c, n, d, n'), scope, eval)
  {
    hide PartNeat, W.Ask, Holds, Reads, ClosedCond, Eval;
    IteTaken(cond, c, d, v, scope, eval, n, n');
    IteNotFalse(cond, c, d, v);
    IteParts(cond, c, n, d, n');
    var r := IteNote(cond, c, n, d, n');
    if Eval(cond, v, map[]) != 0 {
      PartMore(enters, c, IteClauses(cond, c, d), n, scope, eval);
    } else {
      PartMore(enters, d, IteClauses(cond, c, d), n', scope, eval);
    }
    BranchNeat(enters, IteClauses(cond, c, d), r.cond, n, n', scope, eval);
  }

  lemma IteNotFalse(cond: Expr, c: Clauses, d: Clauses, v: Val)
    requires Holds(IteClauses(cond, c, d), v)
    ensures !(IsFalse(c) && IsFalse(d))
  {
    if IsFalse(c) && IsFalse(d) {
      IsFalseMeaning(c, v);
      assert false;
    }
  }

  lemma IteParts(cond: Expr, c: Clauses, n: W.Annot, d: Clauses, n': W.Annot)
    requires IteNote(cond, c, n, d, n').Branch? && !(IsFalse(c) && IsFalse(d))
    ensures Used(c) <= Used(IteClauses(cond, c, d)) && Used(d) <= Used(IteClauses(cond, c, d))
    ensures forall x :: x in W.Flags(IteNote(cond, c, n, d, n').cond) ==>
              x in Used(IteClauses(cond, c, d)) && x.kind.Skolem?
  {
    hide IsFalse, FreshBool, Guarded;
    var a := FreshBool(UsedNames(c) + UsedNames(d) + SymNames(cond));
    GuardedUsed(a, cond, c, d);
  }

  // ----- annotations of actions -----

  lemma PlainParts(a: Action)
    requires Core(a) && PlainAction(a)
    ensures a.Sequence? ==>
              (forall e :: e in a.elems ==> Core(e) && PlainAction(e)) && IntUpdate(a) == ComposeAll(a.elems)
    ensures a.Choice? ==>
              (forall b :: b in a.branches ==> Core(b) && PlainAction(b)) && IntUpdate(a) == JoinAll(a.branches)
    ensures a.If? ==> Core(a.thn) && PlainAction(a.thn) && Core(a.els) && PlainAction(a.els)
    ensures a.If? ==> StateExpr(a.cond) && Closed(a.cond)
    ensures a.Local? ==> Core(a.body) && PlainAction(a.body)
    ensures a.BindOldsAction? ==> Core(a.inner) && PlainAction(a.inner)
  {
  }

  lemma EmptyNeat(enters: bool, c: Clauses, scope: Renaming, eval: Sym -> bool)
    ensures PartNeat(enters, c, W.Empty, scope, eval)
  {
  }

  lemma RenamedPart(enters: bool, c: Clauses, m: Renaming, n: W.Annot, scope: Renaming, eval: Sym -> bool)
    requires OfProgram(m) && (enters ==> AllSpelled(Used(c))) && PartNeat(enters, c, n, W.Entered(scope, m), eval)
    ensures PartNeat(enters, Rename(c, m), Renamed(n, m), scope, eval)
  {
    hide Used, Rename, AsksUsed, EntersUsed, W.Entered, Renamed, W.Tidy, AllSpelled, OfProgram;
    AsksRenamed(c, m, n, scope, eval);
    if enters { EntersRenamed(c, m, n, scope, eval); }
    RenamedSets(n, m, scope, eval);
  }

  lemma ReadsInside(c: Clauses, m: Renaming, v: Val, scope: Renaming, eval: Sym -> bool)
    requires OfProgram(m) && Holds(Rename(c, m), v) && Reads(scope, eval, v)
    ensures Holds(c, Pull(v, m)) && Reads(W.Entered(scope, m), eval, Pull(v, m))
  {
    hide Holds, Rename, W.Entered, Reads;
    RenameMeaning(c, m, v);
    ReadsRenamed(scope, eval, v, m);
  }

  lemma MapsOfProgram(xs: seq<Id>, mod: seq<Id>, c: Clauses)
    ensures OfProgram(HideMap(xs, mod, c)) && OfProgram(OldMap(c))
  {
  }

  /** The annotation of a transition formula is neat along the way of every valuation. */
  lemma {:induction false} TransitionNeat(a: Action, v: Val, scope: Renaming, eval: Sym -> bool)
    requires Core(a) && PlainAction(a) && Holds(IntUpdate(a).tr, v) && Reads(scope, eval, v)
    requires W.Fair(NotesOf(a).tr, scope, eval)
    ensures PartNeat(true, IntUpdate(a).tr, NotesOf(a).tr, scope, eval)
    decreases Size(a), 3
  {
    hide Core, PlainAction, Holds, W.Fair, Reads, PartNeat, NotesOf, IntUpdate, SequenceNotes, ChoiceNotes, ComposeAll,
      JoinAll;
    PlainParts(a);
    NotesAre(a);
    match a
    case Sequence(es) => SequenceNeat(es, v, scope, eval);
    case Choice(bs) => ChoiceNeat(bs, v, scope, eval);
    case If(_, _, _) => IfNeat(a, v, scope, eval);
    case Local(_, _) => LocalNeat(a, v, scope, eval);
    case BindOldsAction(_) => BindNeat(a, v, scope, eval);
    case IfSome(_, _, _) => IfSomeNeat(a, v, scope, eval);
    case _ => EmptyNeat(true, IntUpdate(a).tr, scope, eval);
  }

  lemma NotesAre(a: Action)
    requires Core(a) && PlainAction(a)
    ensures a.Sequence? ==> (forall e :: e in a.elems ==> Core(e)) && NotesOf(a) == SequenceNotes(a.elems)
    ensures a.Choice? ==> (forall b :: b in a.branches ==> Core(b)) && NotesOf(a) == ChoiceNotes(a.branches)
    ensures Leaf(a) && !a.BindOldsAction? ==> NotesOf(a) == NO_NOTES
  {
    hide SequenceNotes, ChoiceNotes;
  }

  lemma {:induction false} LocalNeat(a: Action, v: Val, scope: Renaming, eval: Sym -> bool)
    requires a.Local? && Core(a) && PlainAction(a) && Holds(IntUpdate(a).tr, v) && Reads(scope, eval, v)
    requires W.Fair(NotesOf(a).tr, scope, eval)
    ensures PartNeat(true, IntUpdate(a).tr, NotesOf(a).tr, scope, eval)
    decreases Size(a), 2
  {
    hide Holds, W.Fair, Reads, PartNeat, Rename, W.Entered, Renamed, Used, HideMap, OldMap;
    var u := IntUpdate(a.body);
    var m := HideMap(a.xs, u.mod, u.tr);
    FairRenamed(NotesOf(a.body).tr, m, scope, eval);
    MapsOfProgram(a.xs, u.mod, u.tr);
    ReadsInside(u.tr, m, v, scope, eval);
    TransitionNeat(a.body, Pull(v, m), W.Entered(scope, m), eval);
    UpdateSpelled(a.body);
    RenamedPart(true, u.tr, m, NotesOf(a.body).tr, scope, eval);
  }

  lemma {:induction false} BindNeat(a: Action, v: Val, scope: Renaming, eval: Sym -> bool)
    requires a.BindOldsAction? && Core(a) && PlainAction(a) && Holds(IntUpdate(a).tr, v) && Reads(scope, eval, v)
    requires W.Fair(NotesOf(a).tr, scope, eval)
    ensures PartNeat(true, IntUpdate(a).tr, NotesOf(a).tr, scope, eval)
    decreases Size(a), 2
  {
    hide Holds, W.Fair, Reads, PartNeat, Rename, W.Entered, Renamed, Used, HideMap, OldMap;
    var u := IntUpdate(a.inner);
    var m := OldMap(u.tr);
    FairRenamed(NotesOf(a.inner).tr, m, scope, eval);
    MapsOfProgram([], u.mod, u.tr);
    ReadsInside(u.tr, m, v, scope, eval);
    TransitionNeat(a.inner, Pull(v, m), W.Entered(scope, m), eval);
    UpdateSpelled(a.inner);
    RenamedPart(true, u.tr, m, NotesOf(a.inner).tr, scope, eval);
  }

  lemma {:induction false} IfNeat(a: Action, v: Val, scope: Renaming, eval: Sym -> bool)
    requires a.If? && Core(a) && PlainAction(a) && Holds(IntUpdate(a).tr, v) && Reads(scope, eval, v)
    requires W.Fair(NotesOf(a).tr, scope, eval)
    ensures PartNeat(true, IntUpdate(a).tr, NotesOf(a).tr, scope, eval)
    decreases Size(a), 2
  {
    hide Holds, W.Fair, Reads, PartNeat, Used, And, DiffFrame, IteClauses, IteNote, Eval, ClosedCond;
    var u1, u2 := IntUpdate(a.thn), IntUpdate(a.els);
    var n1, n2 := NotesOf(a.thn).tr, NotesOf(a.els).tr;
    var c, d := And(u1.tr, DiffFrame(u1.mod, u2.mod)), And(u2.tr, DiffFrame(u2.mod, u1.mod));
    CondClosed(a.cond);
    IteTaken(a.cond, c, d, v, scope, eval, n1, n2);
    FairBranch(NotesOf(a).tr, scope, eval);
    if Eval(a.cond, v, map[]) != 0 {
      AndParts(u1.tr, DiffFrame(u1.mod, u2.mod), v);
      TransitionNeat(a.thn, v, scope, eval);
      FrameNeat(true, u1.tr, u1.mod, u2.mod, n1, scope, eval, v);
    } else {
      AndParts(u2.tr, DiffFrame(u2.mod, u1.mod), v);
      TransitionNeat(a.els, v, scope, eval);
      FrameNeat(true, u2.tr, u2.mod, u1.mod, n2, scope, eval, v);
    }
    IteNeat(true, a.cond, c, n1, d, n2, scope, eval, v);
  }

  lemma {:induction false} ChoiceNeat(bs: seq<Action>, v: Val, scope: Renaming, eval: Sym -> bool)
    requires (forall b :: b in bs ==> Core(b) && PlainAction(b)) && Holds(JoinAll(bs).tr, v) && Reads(scope, eval, v)
    requires W.Fair(ChoiceNotes(bs).tr, scope, eval)
    ensures PartNeat(true, JoinAll(bs).tr, ChoiceNotes(bs).tr, scope, eval)
    decreases SizeAll(bs), 5
  {
    hide Core, PlainAction, Holds, W.Fair, Reads, PartNeat, Used, And, DiffFrame, Or, OrCond, OrNote, IntUpdate,
      NotesOf;
    if bs == [] {
      EmptyNeat(true, JoinAll(bs).tr, scope, eval);
    } else {
      var n := |bs| - 1;
      JoinUpdateIs(bs);
      var u1, u2 := JoinAll(bs[..n]), IntUpdate(bs[n]);
      var n1, n2 := ChoiceNotes(bs[..n]).tr, NotesOf(bs[n]).tr;
      var c, d := And(u1.tr, DiffFrame(u1.mod, u2.mod)), And(u2.tr, DiffFrame(u2.mod, u1.mod));
      FairOr(c, n1, d, n2, scope, eval);
      OrTaken(c, d, v, scope, eval);
      assert bs[n] in bs;
      if W.Ask(eval, scope, OrCond(c, d)) {
        AndParts(u2.tr, DiffFrame(u2.mod, u1.mod), v);
        TransitionNeat(bs[n], v, scope, eval);
        FrameNeat(true, u2.tr, u2.mod, u1.mod, n2, scope, eval, v);
      } else {
        AndParts(u1.tr, DiffFrame(u1.mod, u2.mod), v);
        ChoiceNeat(bs[..n], v, scope, eval);
        FrameNeat(true, u1.tr, u1.mod, u2.mod, n1, scope, eval, v);
      }
      OrNeat(true, c, n1, d, n2, scope, eval, v);
    }
  }

  lemma FairOr(c: Clauses, n: W.Annot, d: Clauses, n': W.Annot, scope: Renaming, eval: Sym -> bool)
    requires W.Fair(OrNote(c, n, d, n'), scope, eval)
    ensures W.Fair(if W.Ask(eval, scope, OrCond(c, d)) then n' else n, scope, eval)
  {
    hide OrCond;
    FairBranch(OrNote(c, n, d, n'), scope, eval);
  }

  lemma SwappedNeat(enters: bool, c: Clauses, n: W.Annot, d: Clauses, n': W.Annot, scope: Renaming, eval: Sym -> bool,
                    v: Val)
    requires Holds(Or(c, d), v) && Reads(scope, eval, v)
    requires W.Ask(eval, scope, Negated(OrCond(c, d))) == !W.Ask(eval, scope, OrCond(c, d))
    requires if W.Ask(eval, scope, OrCond(c, d)) then PartNeat(enters, d, n', scope, eval)
             else PartNeat(enters, c, n, scope, eval)
    ensures PartNeat(enters, Or(c, d), SwappedNote(c, n, d, n'), scope, eval)
  {
    hide PartNeat, W.Ask, Holds, Reads, OrCond;
    OrTaken(c, d, v, scope, eval);
    OrParts(c, d, W.Ask(eval, scope, OrCond(c, d)), v);
    if W.Ask(eval, scope, OrCond(c, d)) {
      PartMore(enters, d, Or(c, d), n', scope, eval);
    } else {
      PartMore(enters, c, Or(c, d), n, scope, eval);
    }
    BranchNeat(enters, Or(c, d), Negated(OrCond(c, d)), n, n', scope, eval);
  }

  lemma {:induction false} IfSomeNeat(a: Action, v: Val, scope: Renaming, eval: Sym -> bool)
    requires a.IfSome? && Core(a) && PlainAction(a) && Holds(IntUpdate(a).tr, v) && Reads(scope, eval, v)
    requires W.Fair(NotesOf(a).tr, scope, eval)
    ensures PartNeat(true, IntUpdate(a).tr, NotesOf(a).tr, scope, eval)
    decreases Size(a), 2
  {
    CoreIfPart(a.some, a.thn, a.els);
    PlainIfPart(a);
    var p, q := IfPart(a.some, a.thn), ElsePart(a.some, a.els);
    var u1, u2 := IntUpdate(p), IntUpdate(q);
    var n1, n2 := NotesOf(p).tr, NotesOf(q).tr;
    var c, d := And(u1.tr, DiffFrame(u1.mod, u2.mod)), And(u2.tr, DiffFrame(u2.mod, u1.mod));
    assert IntUpdate(a).tr == Or(c, d) && NotesOf(a).tr == SwappedNote(c, n1, d, n2);
    hide Holds, W.Fair, Reads, PartNeat, Used, And, DiffFrame, Or, OrCond, IntUpdate, NotesOf, Core, PlainAction,
      IfPart, ElsePart;
    OrTaken(c, d, v, scope, eval);
    FairSwapped(c, n1, d, n2, scope, eval);
    if W.Ask(eval, scope, OrCond(c, d)) {
      AndParts(u2.tr, DiffFrame(u2.mod, u1.mod), v);
      TransitionNeat(q, v, scope, eval);
      FrameNeat(true, u2.tr, u2.mod, u1.mod, n2, scope, eval, v);
    } else {
      AndParts(u1.tr, DiffFrame(u1.mod, u2.mod), v);
      TransitionNeat(p, v, scope, eval);
      FrameNeat(true, u1.tr, u1.mod, u2.mod, n1, scope, eval, v);
    }
    SwappedNeat(true, c, n1, d, n2, scope, eval, v);
  }

  /** The valuations of the halves of a link and the answers inside them. */
  lemma LinkInside(tr: Clauses, c: Clauses, mod: seq<Id>, mm: Renaming, v: Val, scope: Renaming, eval: Sym -> bool)
    returns (w1: Val, w2: Val)
    requires Holds(Link(tr, Rename(c, DistinctMap(c, tr)), mod, mm), v) && Reads(scope, eval, v)
    ensures Holds(tr, w1) && Reads(W.Entered(scope, MidNew(mod, mm)), eval, w1)
    ensures Holds(c, w2) && Reads(W.Entered(W.Entered(scope, MidBase(mod, mm)), DistinctMap(c, tr)), eval, w2)
    ensures !IsFalse(Link(tr, Rename(c, DistinctMap(c, tr)), mod, mm))
  {
    hide Holds, Link, W.Entered, Reads, MidNew, MidBase, DistinctMap, Keeps, IsFalse, Pull;
    var rd := DistinctMap(c, tr);
    LinkHolds(tr, c, rd, mm, mod, v);
    w1, w2 := Pull(v, MidNew(mod, mm)), Pull(Pull(v, MidBase(mod, mm)), rd);
    MidKeeps(mod, mm);
    DistinctKeeps(c, tr);
    ReadsRenamed(scope, eval, v, MidNew(mod, mm));
    ReadsRenamed(scope, eval, v, MidBase(mod, mm));
    ReadsRenamed(W.Entered(scope, MidBase(mod, mm)), eval, Pull(v, MidBase(mod, mm)), rd);
    IsFalseNot(Link(tr, Rename(c, rd), mod, mm), v);
  }

  lemma {:induction false} SequenceNeat(es: seq<Action>, v: Val, scope: Renaming, eval: Sym -> bool)
    requires (forall e :: e in es ==> Core(e) && PlainAction(e)) && Holds(ComposeAll(es).tr, v) && Reads(scope, eval, v)
    requires W.Fair(SequenceNotes(es).tr, scope, eval)
    ensures PartNeat(true, ComposeAll(es).tr, SequenceNotes(es).tr, scope, eval)
    decreases SizeAll(es), 5
  {
    hide Core, PlainAction, Holds, W.Fair, Reads, PartNeat, Used, Link, LinkNote, IntUpdate, NotesOf, MidMap, Or,
      OrNote;
    if es == [] {
      EmptyNeat(true, ComposeAll(es).tr, scope, eval);
    } else {
      var n := |es| - 1;
      assert es[n] in es;
      var u1, u2 := ComposeAll(es[..n]), IntUpdate(es[n]);
      var n1, n2 := SequenceNotes(es[..n]).tr, NotesOf(es[n]).tr;
      var mm := MidMap(u1, u2);
      var w1, w2 := LinkInside(u1.tr, u2.tr, u1.mod, mm, v, scope, eval);
      FairLink(n1, n2, DistinctMap(u2.tr, u1.tr), u1.mod, mm, scope, eval);
      SequenceNeat(es[..n], w1, W.Entered(scope, MidNew(u1.mod, mm)), eval);
      TransitionNeat(es[n], w2, W.Entered(W.Entered(scope, MidBase(u1.mod, mm)), DistinctMap(u2.tr, u1.tr)), eval);
      SequenceSpelled(es[..n]);
      UpdateSpelled(es[n]);
      UpdateFormed(es[n]);
      LinkNeat(u1.tr, u2.tr, n1, n2, u1.mod, mm, scope, eval);
    }
  }

  lemma LinkNeat(tr: Clauses, c: Clauses, n: W.Annot, n': W.Annot, mod: seq<Id>, mm: Renaming,
                 scope: Renaming, eval: Sym -> bool)
    requires AllSpelled(Used(tr)) && AllSpelled(Used(c)) && NoRigid(c)
    requires PartNeat(true, tr, n, W.Entered(scope, MidNew(mod, mm)), eval)
    requires PartNeat(true, c, n', W.Entered(W.Entered(scope, MidBase(mod, mm)), DistinctMap(c, tr)), eval)
    requires !IsFalse(Link(tr, Rename(c, DistinctMap(c, tr)), mod, mm))
    ensures PartNeat(true, Link(tr, Rename(c, DistinctMap(c, tr)), mod, mm),
                     LinkNote(n, n', DistinctMap(c, tr), mod, mm), scope, eval)
  {
    hide AsksUsed, EntersUsed, Used, W.Tidy, Link, LinkNote, W.Entered, DistinctMap, MidNew, MidBase, IsFalse,
      AllSpelled, NoRigid;
    LinkTidy(tr, c, n, n', mod, mm, scope, eval);
    LinkEnters(tr, c, n, n', mod, mm, scope, eval);
  }

  lemma LinkNeatFailure(tr: Clauses, c: Clauses, n: W.Annot, n': W.Annot, mod: seq<Id>, mm: Renaming,
                        scope: Renaming, eval: Sym -> bool)
    requires AllSpelled(Used(tr)) && PartNeat(true, tr, n, W.Entered(scope, MidNew(mod, mm)), eval)
    requires PartNeat(false, c, n', W.Entered(W.Entered(scope, MidBase(mod, mm)), DistinctMap(c, tr)), eval)
    requires !IsFalse(Link(tr, Rename(c, DistinctMap(c, tr)), mod, mm))
    ensures PartNeat(false, Link(tr, Rename(c, DistinctMap(c, tr)), mod, mm),
                     LinkNote(n, n', DistinctMap(c, tr), mod, mm), scope, eval)
  {
    hide AsksUsed, EntersUsed, Used, W.Tidy, Link, LinkNote, W.Entered, DistinctMap, MidNew, MidBase, IsFalse,
      AllSpelled;
    LinkTidy(tr, c, n, n', mod, mm, scope, eval);
  }

  // ----- annotations of failing conditions -----

  lemma {:induction false} FailureNeat(a: Action, v: Val, scope: Renaming, eval: Sym -> bool)
    requires Core(a) && PlainAction(a) && Holds(IntUpdate(a).pre, v) && Reads(scope, eval, v)
    requires W.Fair(NotesOf(a).pre, scope, eval)
    ensures PartNeat(false, IntUpdate(a).pre, NotesOf(a).pre, scope, eval)
    decreases Size(a), 3
  {
    hide Core, PlainAction, Holds, W.Fair, Reads, PartNeat, NotesOf, IntUpdate, SequenceNotes, ChoiceNotes, ComposeAll,
      JoinAll;
    PlainParts(a);
    NotesAre(a);
    match a
    case Sequence(es) => SequenceFailureNeat(es, v, scope, eval);
    case Choice(bs) => ChoiceFailureNeat(bs, v, scope, eval);
    case If(_, _, _) => IfFailureNeat(a, v, scope, eval);
    case Local(_, _) => LocalFailureNeat(a, v, scope, eval);
    case BindOldsAction(_) => BindFailureNeat(a, v, scope, eval);
    case IfSome(_, _, _) => IfSomeFailureNeat(a, v, scope, eval);
    case _ => EmptyNeat(false, IntUpdate(a).pre, scope, eval);
  }

  lemma {:induction false} LocalFailureNeat(a: Action, v: Val, scope: Renaming, eval: Sym -> bool)
    requires a.Local? && Core(a) && PlainAction(a) && Holds(IntUpdate(a).pre, v) && Reads(scope, eval, v)
    requires W.Fair(NotesOf(a).pre, scope, eval)
    ensures PartNeat(false, IntUpdate(a).pre, NotesOf(a).pre, scope, eval)
    decreases Size(a), 2
  {
    hide Holds, W.Fair, Reads, PartNeat, Rename, W.Entered, Renamed, Used, HideMap, OldMap;
    var u := IntUpdate(a.body);
    var m := HideMap(a.xs, u.mod, u.pre);
    FairRenamed(NotesOf(a.body).pre, m, scope, eval);
    MapsOfProgram(a.xs, u.mod, u.pre);
    ReadsInside(u.pre, m, v, scope, eval);
    FailureNeat(a.body, Pull(v, m), W.Entered(scope, m), eval);
    RenamedPart(false, u.pre, m, NotesOf(a.body).pre, scope, eval);
  }

  lemma {:induction false} BindFailureNeat(a: Action, v: Val, scope: Renaming, eval: Sym -> bool)
    requires a.BindOldsAction? && Core(a) && PlainAction(a) && Holds(IntUpdate(a).pre, v) && Reads(scope, eval, v)
    requires W.Fair(NotesOf(a).pre, scope, eval)
    ensures PartNeat(false, IntUpdate(a).pre, NotesOf(a).pre, scope, eval)
    decreases Size(a), 2
  {
    hide Holds, W.Fair, Reads, PartNeat, Rename, W.Entered, Renamed, Used, HideMap, OldMap;
    var u := IntUpdate(a.inner);
    var m := OldMap(u.pre);
    FairRenamed(NotesOf(a.inner).pre, m, scope, eval);
    MapsOfProgram([], u.mod, u.pre);
    ReadsInside(u.pre, m, v, scope, eval);
    FailureNeat(a.inner, Pull(v, m), W.Entered(scope, m), eval);
    RenamedPart(false, u.pre, m, NotesOf(a.inner).pre, scope, eval);
  }

  lemma {:induction false} IfFailureNeat(a: Action, v: Val, scope: Renaming, eval: Sym -> bool)
    requires a.If? && Core(a) && PlainAction(a) && Holds(IntUpdate(a).pre, v) && Reads(scope, eval, v)
    requires W.Fair(NotesOf(a).pre, scope, eval)
    ensures PartNeat(false, IntUpdate(a).pre, NotesOf(a).pre, scope, eval)
    decreases Size(a), 2
  {
    hide Holds, W.Fair, Reads, PartNeat, Used, And, DiffFrame, IteClauses, IteNote, Eval, ClosedCond;
    var u1, u2 := IntUpdate(a.thn), IntUpdate(a.els);
    var n1, n2 := NotesOf(a.thn).pre, NotesOf(a.els).pre;
    var c, d := And(u1.pre, DiffFrame(u1.mod, u2.mod)), And(u2.pre, DiffFrame(u2.mod, u1.mod));
    CondClosed(a.cond);
    IteTaken(a.cond, c, d, v, scope, eval, n1, n2);
    FairBranch(NotesOf(a).pre, scope, eval);
    if Eval(a.cond, v, map[]) != 0 {
      AndParts(u1.pre, DiffFrame(u1.mod, u2.mod), v);
      FailureNeat(a.thn, v, scope, eval);
      FrameNeat(false, u1.pre, u1.mod, u2.mod, n1, scope, eval, v);
    } else {
      AndParts(u2.pre, DiffFrame(u2.mod, u1.mod), v);
      FailureNeat(a.els, v, scope, eval);
      FrameNeat(false, u2.pre, u2.mod, u1.mod, n2, scope, eval, v);
    }
    IteNeat(false, a.cond, c, n1, d, n2, scope, eval, v);
  }

  lemma {:induction false} ChoiceFailureNeat(bs: seq<Action>, v: Val, scope: Renaming, eval: Sym -> bool)
    requires (forall b :: b in bs ==> Core(b) && PlainAction(b)) && Holds(JoinAll(bs).pre, v) && Reads(scope, eval, v)
    requires W.Fair(ChoiceNotes(bs).pre, scope, eval)
    ensures PartNeat(false, JoinAll(bs).pre, ChoiceNotes(bs).pre, scope, eval)
    decreases SizeAll(bs), 5
  {
    hide Core, PlainAction, Holds, W.Fair, Reads, PartNeat, Used, And, DiffFrame, Or, OrCond, OrNote, IntUpdate,
      NotesOf;
    if bs == [] {
      EmptyNeat(false, JoinAll(bs).pre, scope, eval);
    } else {
      var n := |bs| - 1;
      JoinUpdateIs(bs);
      var u1, u2 := JoinAll(bs[..n]), IntUpdate(bs[n]);
      var n1, n2 := ChoiceNotes(bs[..n]).pre, NotesOf(bs[n]).pre;
      var c, d := And(u1.pre, DiffFrame(u1.mod, u2.mod)), And(u2.pre, DiffFrame(u2.mod, u1.mod));
      FairOr(c, n1, d, n2, scope, eval);
      OrTaken(c, d, v, scope, eval);
      assert bs[n] in bs;
      if W.Ask(eval, scope, OrCond(c, d)) {
        AndParts(u2.pre, DiffFrame(u2.mod, u1.mod), v);
        FailureNeat(bs[n], v, scope, eval);
        FrameNeat(false, u2.pre, u2.mod, u1.mod, n2, scope, eval, v);
      } else {
        AndParts(u1.pre, DiffFrame(u1.mod, u2.mod), v);
        ChoiceFailureNeat(bs[..n], v, scope, eval);
        FrameNeat(false, u1.pre, u1.mod, u2.mod, n1, scope, eval, v);
      }
      OrNeat(false, c, n1, d, n2, scope, eval, v);
    }
  }

  lemma {:induction false} IfSomeFailureNeat(a: Action, v: Val, scope: Renaming, eval: Sym -> bool)
    requires a.IfSome? && Core(a) && PlainAction(a) && Holds(IntUpdate(a).pre, v) && Reads(scope, eval, v)
    requires W.Fair(NotesOf(a).pre, scope, eval)
    ensures PartNeat(false, IntUpdate(a).pre, NotesOf(a).pre, scope, eval)
    decreases Size(a), 2
  {
    CoreIfPart(a.some, a.thn, a.els);
    PlainIfPart(a);
    var p, q := IfPart(a.some, a.thn), ElsePart(a.some, a.els);
    var u1, u2 := IntUpdate(p), IntUpdate(q);
    var n1, n2 := NotesOf(p).pre, NotesOf(q).pre;
    var c, d := And(u1.pre, DiffFrame(u1.mod, u2.mod)), And(u2.pre, DiffFrame(u2.mod, u1.mod));
    assert IntUpdate(a).pre == Or(c, d) && NotesOf(a).pre == SwappedNote(c, n1, d, n2);
    hide Holds, W.Fair, Reads, PartNeat, Used, And, DiffFrame, Or, OrCond, IntUpdate, NotesOf, Core, PlainAction,
      IfPart, ElsePart;
    OrTaken(c, d, v, scope, eval);
    FairSwapped(c, n1, d, n2, scope, eval);
    if W.Ask(eval, scope, OrCond(c, d)) {
      AndParts(u2.pre, DiffFrame(u2.mod, u1.mod), v);
      FailureNeat(q, v, scope, eval);
      FrameNeat(false, u2.pre, u2.mod, u1.mod, n2, scope, eval, v);
    } else {
      AndParts(u1.pre, DiffFrame(u1.mod, u2.mod), v);
      FailureNeat(p, v, scope, eval);
      FrameNeat(false, u1.pre, u1.mod, u2.mod, n1, scope, eval, v);
    }
    SwappedNeat(false, c, n1, d, n2, scope, eval, v);
  }

  lemma {:induction false} SequenceFailureNeat(es: seq<Action>, v: Val, scope: Renaming, eval: Sym -> bool)
    requires (forall e :: e in es ==> Core(e) && PlainAction(e)) && Holds(ComposeAll(es).pre, v) &&
             Reads(scope, eval, v)
    requires W.Fair(SequenceNotes(es).pre, scope, eval)
    ensures PartNeat(false, ComposeAll(es).pre, SequenceNotes(es).pre, scope, eval)
    decreases SizeAll(es), 5
  {
    hide Core, PlainAction, Holds, W.Fair, Reads, PartNeat, Used, Link, LinkNote, IntUpdate, NotesOf, MidMap, Or,
      OrNote, OrCond, DistinctMap, And, DiffFrame;
    if es == [] {
      EmptyNeat(false, ComposeAll(es).pre, scope, eval);
    } else {
      var n := |es| - 1;
      assert es[n] in es;
      var u1, u2 := ComposeAll(es[..n]), IntUpdate(es[n]);
      var n1, n2 := SequenceNotes(es[..n]), NotesOf(es[n]);
      var c, d := FailsFirst(u1, u2), FailsSecond(u1, u2);
      OrTaken(c, d, v, scope, eval);
      var last := LinkNote(n1.tr, n2.pre, DistinctMap(u2.pre, u1.tr), u1.mod, MidMap(u1, u2));
      FairOr(c, n1.pre, d, last, scope, eval);
      if W.Ask(eval, scope, OrCond(c, d)) {
        LastFailureNeat(es, v, scope, eval);
      } else {
        AndParts(u1.pre, DiffFrame(u1.mod, u2.mod), v);
        SequenceFailureNeat(es[..n], v, scope, eval);
        FrameNeat(false, u1.pre, u1.mod, u2.mod, n1.pre, scope, eval, v);
      }
      OrNeat(false, c, n1.pre, d, last, scope, eval, v);
    }
  }

  lemma {:induction false} LastFailureNeat(es: seq<Action>, v: Val, scope: Renaming, eval: Sym -> bool)
    requires es != [] && (forall e :: e in es ==> Core(e) && PlainAction(e)) && Reads(scope, eval, v)
    requires Holds(FailsSecond(ComposeAll(es[..|es| - 1]), IntUpdate(es[|es| - 1])), v)
    requires var n := |es| - 1;
             var u1, u2 := ComposeAll(es[..n]), IntUpdate(es[n]);
             W.Fair(LinkNote(SequenceNotes(es[..n]).tr, NotesOf(es[n]).pre, DistinctMap(u2.pre, u1.tr), u1.mod,
                             MidMap(u1, u2)), scope, eval)
    ensures var n := |es| - 1;
            var u1, u2 := ComposeAll(es[..n]), IntUpdate(es[n]);
            var last := LinkNote(SequenceNotes(es[..n]).tr, NotesOf(es[n]).pre, DistinctMap(u2.pre, u1.tr), u1.mod,
                                 MidMap(u1, u2));
            PartNeat(false, FailsSecond(u1, u2), last, scope, eval)
    decreases SizeAll(es), 4
  {
    hide Core, PlainAction, Holds, W.Fair, Reads, PartNeat, Used, Link, LinkNote, IntUpdate, NotesOf, MidMap,
      ComposeAll, SequenceNotes, DistinctMap;
    var n := |es| - 1;
    assert es[n] in es;
    var u1, u2 := ComposeAll(es[..n]), IntUpdate(es[n]);
    var mm := MidMap(u1, u2);
    var w1, w2 := LinkInside(u1.tr, u2.pre, u1.mod, mm, v, scope, eval);
    FairLink(SequenceNotes(es[..n]).tr, NotesOf(es[n]).pre, DistinctMap(u2.pre, u1.tr), u1.mod, mm, scope, eval);
    SequenceNeat(es[..n], w1, W.Entered(scope, MidNew(u1.mod, mm)), eval);
    FailureNeat(es[n], w2, W.Entered(W.Entered(scope, MidBase(u1.mod, mm)), DistinctMap(u2.pre, u1.tr)), eval);
    SequenceSpelled(es[..n]);
    LinkNeatFailure(u1.tr, u2.pre, SequenceNotes(es[..n]).tr, NotesOf(es[n]).pre, u1.mod, mm, scope, eval);
  }

  // ----- the walk of a compiled action -----

  /** The answers of a valuation. */
  ghost function Answers(v: Val): Sym -> bool
  {
    x => IsOn(x, v)
  }

  lemma AnswersRead(v: Val)
    ensures Reads(map[], Answers(v), v)
  {
  }

  /** Whatever order the renamings are entered in, walking the annotation of a transition formula with the answers
      of one of its valuations hands over, in order and without complaint, the actions of a run between the states
      of the valuation: if the order does not matter to the flags asked on the way, and no flag whose negation is
      asked there has been renamed to one with another value. */
  lemma TransitionWalked(a: Action, v: Val, o: State, s: State, t: State, mod: W.Callees, r: W.Walked)
    requires Core(a) && PlainAction(a) && Moves(IntUpdate(a), v, o, s, t)
    requires W.Settled(NotesOf(a).tr, map[], Answers(v)) && W.Fair(NotesOf(a).tr, map[], Answers(v))
    requires W.Walks(Shape(a), NotesOf(a).tr, map[], -1, Answers(v), mod, r)
    ensures !r.misfit && !r.gaveUp && Traced(a, W.Events(r.log), o, s, t) && Exec(a, o, s, t)
  {
    hide Core, PlainAction, Holds, Reads, Traced, NotesOf, IntUpdate, W.Walks, W.Denote, W.Tidy, Exec, W.Bound,
      W.Asked, W.Fair, W.Settled;
    AnswersRead(v);
    TransitionTold(a, v, o, s, t, map[], Answers(v), mod);
    TransitionNeat(a, v, map[], Answers(v));
    W.WalkFaithful(Shape(a), NotesOf(a).tr, map[], map[], -1, false, Answers(v), mod, r);
    TracedRuns(a, W.Events(r.log), o, s, t);
  }

  /** And walking the annotation of a failing condition hands over those of a run that ends in a false assertion. */
  lemma FailureWalked(a: Action, v: Val, o: State, s: State, t: State, mod: W.Callees, r: W.Walked)
    requires Core(a) && PlainAction(a) && Breaks(IntUpdate(a), v, o, s, t)
    requires W.Settled(NotesOf(a).pre, map[], Answers(v)) && W.Fair(NotesOf(a).pre, map[], Answers(v))
    requires W.Walks(Shape(a), NotesOf(a).pre, map[], -1, Answers(v), mod, r)
    ensures !r.misfit && !r.gaveUp && FailTraced(a, W.Events(r.log), o, s) && Aborts(a, o, s)
  {
    hide Core, PlainAction, Holds, Reads, FailTraced, NotesOf, IntUpdate, W.Walks, W.Denote, W.Tidy, Aborts, W.Bound,
      W.Asked, W.Fair, W.Settled;
    AnswersRead(v);
    FailureTold(a, v, o, s, t, map[], Answers(v), mod);
    FailureNeat(a, v, map[], Answers(v));
    W.WalkFaithful(Shape(a), NotesOf(a).pre, map[], map[], -1, true, Answers(v), mod, r);
    FailTracedAborts(a, W.Events(r.log), o, s);
  }
}
