/**
 Compiled programs whose walk goes wrong, one for each condition of the theorems about the walk: a branch that was
 not run because a renaming was entered in an unlucky order, a branch that was not run because a negated flag is not
 looked up, and an environment with a binding left behind.
 */
module WalkFindings {
  import opened Options
  import opened Names
  import opened Logic
  import opened ClauseOps
  import opened Updates
  import opened Hiding
  import opened Substitution
  import opened Actions
  import opened Sizes
  import opened Atoms
  import opened Somes
  import opened Compiler
  import opened Annotations
  import opened Scopes
  import opened Orders
  import Eq = Equivariance
  import W = Walkers

  // ----- computing updates -----

  lemma {:induction false} RenameExprKeeps(e: Expr, m: Renaming)
    requires forall x :: x in Syms(e) ==> Lookup(m, x) == x
    ensures RenameExpr(e, m) == e
    decreases e, 1
  {
    hide Lookup;
    match e
    case Var(_) =>
    case Lit(_) =>
    case App(f, args) => RenameExprsKeep(args, m);
    case Not(a) => RenameExprKeeps(a, m);
    case Op(_, l, r) => RenameExprKeeps(l, m); RenameExprKeeps(r, m);
    case Ite(c, t, f) => RenameExprKeeps(c, m); RenameExprKeeps(t, m); RenameExprKeeps(f, m);
    case Quant(_, _, b) => RenameExprKeeps(b, m);
  }

  lemma {:induction false} RenameExprsKeep(es: seq<Expr>, m: Renaming)
    requires forall x :: x in SymsAll(es) ==> Lookup(m, x) == x
    ensures RenameExprs(es, m) == es
    decreases es, 0
  {
    hide Lookup;
    if es != [] {
      RenameExprsKeep(es[..|es| - 1], m);
      RenameExprKeeps(es[|es| - 1], m);
    }
  }

  lemma {:induction false} RenameKeeps(c: Clauses, m: Renaming)
    requires forall x :: x in Used(c) ==> Lookup(m, x) == x
    ensures Rename(c, m) == c
  {
    hide Lookup;
    match c
    case Const(_) =>
    case Fact(e) => RenameExprKeeps(e, m);
    case Flag(_, _) =>
    case Copy(_, _) =>
    case Pair(_, a, b) => RenameKeeps(a, m); RenameKeeps(b, m);
  }

  lemma RenameNothing(c: Clauses)
    ensures Rename(c, map[]) == c
  {
    RenameKeeps(c, map[]);
  }

  lemma {:induction false} IsFalseRenamed(c: Clauses, m: Renaming)
    ensures IsFalse(Rename(c, m)) <==> IsFalse(c)
  {
    match c
    case Fact(e) => LitRenamed(e, m);
    case Pair(_, a, b) => IsFalseRenamed(a, m); IsFalseRenamed(b, m);
    case _ =>
  }

  lemma LitRenamed(e: Expr, m: Renaming)
    ensures RenameExpr(e, m) == Lit(0) <==> e == Lit(0)
  {
    match e
    case App(_, _) =>
    case _ =>
  }

  /** Composition of updates that change and check nothing. */
  lemma ComposePlain(c: Clauses, n: Notes, d: Clauses, n': Notes)
    requires !IsFalse(c) && !IsFalse(d)
    ensures Compose(Update([], c, BOT), Update([], d, BOT)) == Update([], Both(c, Rename(d, DistinctMap(d, c))), BOT)
    ensures ComposeNotes(Update([], c, BOT), n, Update([], d, BOT), n').tr ==
            W.Compose(n.tr, Renamed(n'.tr, DistinctMap(d, c)))
  {
    hide DistinctMap, MidMap, Used, OrCond;
    var u1, u2 := Update([], c, BOT), Update([], d, BOT);
    var mm := MidMap(u1, u2);
    NoMids(mm);
    LinkPlain(c, Rename(d, DistinctMap(d, c)), mm);
    LinkPlain(c, Rename(BOT, DistinctMap(BOT, c)), mm);
    IsFalseRenamed(d, DistinctMap(d, c));
    assert Rename(BOT, DistinctMap(BOT, c)) == BOT;
    assert Select([], [], false) == [] && UpdatedJoin([], []) == [];
    assert Or(BOT, BOT) == BOT;
    hide Link, Rename, And;
  }

  lemma NoMids(mm: Renaming)
    ensures MidNew([], mm) == map[] && MidBase([], mm) == map[]
  {
  }

  lemma LinkPlain(c: Clauses, d: Clauses, mm: Renaming)
    ensures Link(c, d, [], mm) == And(c, d)
  {
    hide MidNew, MidBase, And;
    NoMids(mm);
    RenameNothing(c);
    RenameNothing(d);
  }

  lemma ComposeOne(a: Action)
    requires Core(a)
    ensures ComposeAll([a]) == Compose(NullUpdate(), IntUpdate(a))
    ensures SequenceNotes([a]) == ComposeNotes(NullUpdate(), NO_NOTES, IntUpdate(a), NotesOf(a))
  {
    hide Core, IntUpdate, Compose, ComposeNotes, NotesOf;
    assert [a][..0] == [];
  }

  lemma ComposeTwo(a: Action, b: Action)
    requires Core(a) && Core(b)
    ensures ComposeAll([a, b]) == Compose(ComposeAll([a]), IntUpdate(b))
    ensures SequenceNotes([a, b]) == ComposeNotes(ComposeAll([a]), SequenceNotes([a]), IntUpdate(b), NotesOf(b))
  {
    hide Core, IntUpdate, Compose, ComposeNotes, NotesOf;
    assert [a, b][..1] == [a];
  }

  lemma ShapeTwo(a: Action, b: Action)
    ensures Shape(Sequence([a, b])) == W.Seq([Shape(a), Shape(b)])
  {
    assert [a, b][..1] == [a] && [a][..0] == [];
    assert Shapes([a]) == [Shape(a)];
  }

  // ----- three conditionals -----

  const P := Id("p", 0)
  const Q := Id("q", 0)
  const R := Id("r", 0)

  const FLAG1 := Sym(Skolem, Id("__ts0_a", 0))
  const FLAG2 := Sym(Skolem, Id("__ts0_a_a", 0))
  const FLAG3 := Sym(Skolem, Id("__ts0_a_a_a", 0))

  /** What the branches do is of no importance, only which one is taken. */
  const YES := Assume(Lit(1))
  const NO := Assume(Lit(2))

  function Holding(p: Id): Expr { App(BaseSym(p), []) }

  /** if p { YES } else { NO } */
  function Pick(p: Id): Action { If(Holding(p), YES, NO) }

  /** if p { YES } else { NO }; { if q { YES } else { NO }; if r { YES } else { NO } } */
  const THREE := Sequence([Pick(P), Sequence([Pick(Q), Pick(R)])])

  /** The transition formula of a conditional with the given flag. */
  function PickTr(p: Id, flag: Sym): Clauses
  {
    Guarded(flag, Holding(p), Both(Fact(Lit(1)), TOP), Both(Fact(Lit(2)), TOP))
  }

  const ASK: W.Annot := W.Branch(W.On(FLAG1), W.Empty, W.Empty)

  predicate Plainly(p: Id)
  {
    p.arity == 0 && p.name in {"p", "q", "r"}
  }

  lemma PickCore(p: Id)
    requires Plainly(p)
    ensures Core(Pick(p)) && StateExpr(Holding(p)) && Closed(Holding(p)) && Syms(Holding(p)) == {BaseSym(p)}
    ensures PlainAction(Pick(p))
  {
    assert SymsAll([]) == {};
    assert "p" != "" && "p"[0] == 'p' && "q" != "" && "q"[0] == 'q' && "r" != "" && "r"[0] == 'r';
    PlainLetter(p.name);
    assert Leading(Lit(1)) == {} && Leading(Lit(2)) == {};
  }

  lemma PlainLetter(s: string)
    requires s in {"p", "q", "r"}
    ensures PlainName(s)
  {
    assert |s| == 1;
  }

  lemma FirstSuffix(base: string, used: set<string>)
    ensures base + "_a" !in used ==> FirstUnused(base, used, 0) == base + "_a"
  {
    assert Suffix(0) == "a";
    assert base + "_" + "a" == base + "_a";
  }

  /** The flag of a conditional is __ts0_a when nothing else is called so. */
  lemma FlagName(used: set<string>)
    requires "__ts0_a" !in used
    ensures FreshBool(used) == FLAG1
  {
    assert "__ts0" + "" == "__ts0" && "__ts0" + "_a" == "__ts0_a";
    FirstSuffix("__ts0", used);
  }

  lemma PickUpdate(p: Id)
    requires Plainly(p) && Core(Pick(p))
    ensures IsPick(Pick(p), p)
  {
    var c, d := Both(Fact(Lit(1)), TOP), Both(Fact(Lit(2)), TOP);
    AssumedLit(1);
    AssumedLit(2);
    assert Select([], [], false) == [] && UpdatedJoin([], []) == [];
    assert And(Fact(Lit(1)), TOP) == c && And(Fact(Lit(2)), TOP) == d && And(BOT, TOP) == BOT;
    PickFlag(p);
    hide FreshBool, Guarded, UsedNames, SymNames, AssumeUpdate, And;
    assert NotesOf(YES) == NO_NOTES && NotesOf(NO) == NO_NOTES;
    assert IntUpdate(YES) == Update([], Fact(Lit(1)), BOT) && IntUpdate(NO) == Update([], Fact(Lit(2)), BOT);
  }

  lemma PickFlag(p: Id)
    requires Plainly(p)
    ensures var c, d := Both(Fact(Lit(1)), TOP), Both(Fact(Lit(2)), TOP);
            FreshBool(UsedNames(c) + UsedNames(d) + SymNames(Holding(p))) == FLAG1 && !IsFalse(c) && !IsFalse(d)
  {
    var c, d := Both(Fact(Lit(1)), TOP), Both(Fact(Lit(2)), TOP);
    ConstSyms(BaseSym(p));
    assert Used(c) == {} && Used(d) == {};
    assert SymNames(Holding(p)) == {p.name};
    assert UsedNames(c) + UsedNames(d) + SymNames(Holding(p)) == {p.name};
    assert |"__ts0_a"| == 7 && |p.name| == 1;
    FlagName({p.name});
  }

  lemma AssumedLit(k: int)
    ensures AssumeUpdate(Assume(Lit(k)).f) == Update([], Fact(Lit(k)), BOT)
  {
    assert Leading(Lit(k)) == {} && Matrix(Lit(k)) == Lit(k);
  }

  lemma LitClauses(k: int, x: Sym, on: bool)
    ensures var c := Either(Flag(x, on), Both(Fact(Lit(k)), TOP));
            && Used(c) == {x} && OrderedUsed(c) == [x]
            && forall m :: Rename(c, m) == Either(Flag(Lookup(m, x), on), Both(Fact(Lit(k)), TOP))
  {
    var c := Both(Fact(Lit(k)), TOP);
    assert Ordered(Lit(k)) == [];
    assert OrderedUsed(Fact(Lit(k))) == [] && OrderedUsed(TOP) == [];
    assert OrderedUsed(c) == OrderedUsed(Fact(Lit(k))) + OrderedUsed(TOP) == [];
    assert Used(c) == {};
    forall m: Renaming
      ensures Rename(c, m) == c
    {
    }
  }

  lemma PickUsed(p: Id, flag: Sym)
    ensures Used(PickTr(p, flag)) == {flag, BaseSym(p)}
  {
    ConstSyms(BaseSym(p));
    ConstSyms(flag);
    OpSyms(Equals, App(flag, []), Not(Not(Holding(p))));
    assert Syms(Not(Not(Holding(p)))) == {BaseSym(p)};
    LitClauses(1, flag, false);
    LitClauses(2, flag, true);
    hide Syms;
  }

  lemma PickOrder(p: Id, flag: Sym)
    ensures OrderedUsed(PickTr(p, flag)) == [flag, flag, flag, BaseSym(p)]
  {
    ConstOrder(BaseSym(p));
    ConstOrder(flag);
    OpOrder(Equals, App(flag, []), Not(Not(Holding(p))));
    assert Ordered(Not(Not(Holding(p)))) == [BaseSym(p)];
    LitClauses(1, flag, false);
    LitClauses(2, flag, true);
    hide Ordered;
  }

  lemma OpOrder(op: BinOp, l: Expr, r: Expr)
    ensures Ordered(Op(op, l, r)) == Ordered(l) + Ordered(r)
  {
  }

  lemma ConstOrder(x: Sym)
    ensures Ordered(App(x, [])) == [x]
  {
  }

  lemma PickRenamed(p: Id, x: Sym, m: Renaming)
    requires Lookup(m, BaseSym(p)) == BaseSym(p)
    ensures Rename(PickTr(p, x), m) == PickTr(p, Lookup(m, x))
  {
    hide Lookup;
    LitClauses(1, x, false);
    LitClauses(2, x, true);
    ConstRenamed(x, m);
    ConstRenamed(BaseSym(p), m);
    OpRenamed(Equals, App(x, []), Not(Not(Holding(p))), m);
    assert RenameExpr(Not(Not(Holding(p))), m) == Not(Not(Holding(p)));
    hide RenameExpr;
  }

  lemma ConstRenamed(x: Sym, m: Renaming)
    ensures RenameExpr(App(x, []), m) == App(Lookup(m, x), [])
  {
  }

  lemma OpRenamed(op: BinOp, l: Expr, r: Expr, m: Renaming)
    ensures RenameExpr(Op(op, l, r), m) == Op(op, RenameExpr(l, m), RenameExpr(r, m))
  {
  }

  lemma SkolemsSnoc(xs: seq<Sym>, x: Sym)
    ensures Skolems(xs + [x]) == if x.kind.Skolem? && x !in Skolems(xs) then Skolems(xs) + [x] else Skolems(xs)
  {
    assert (xs + [x])[..|xs|] == xs;
  }

  /** The existential symbols of a conditional behind others. */
  lemma PickSkolems(before: seq<Sym>, p: Id, x: Sym)
    requires x.kind.Skolem?
    ensures var r := Skolems(before);
            Skolems(before + [x, x, x, BaseSym(p)]) == if x in r then r else r + [x]
  {
    hide Skolems;
    var b1, b2, b3 := before + [x], before + [x, x], before + [x, x, x];
    SkolemsSnoc(before, x);
    SkolemsSnoc(b1, x);
    SkolemsSnoc(b2, x);
    SkolemsSnoc(b3, BaseSym(p));
    assert b1 + [x] == b2 && b2 + [x] == b3 && b3 + [BaseSym(p)] == before + [x, x, x, BaseSym(p)];
  }

  lemma NoSkolems()
    ensures Skolems([]) == [] && Existentials(TOP) == []
  {
  }

  /** What the flags are called after renaming apart. */
  lemma GivenFlag(x: Sym, name: string, used: set<string>)
    requires Spell(x) in used && Spell(x) + "_a" == name && name !in used
    ensures Fresh("", Spell(x), used) == name
  {
    assert "" + Spell(x) == Spell(x);
    FirstSuffix(Spell(x), used);
  }

  lemma FlagNames()
    ensures "__ts0_a" + "_a" == "__ts0_a_a" && "__ts0_a_a" + "_a" == "__ts0_a_a_a"
    ensures |"__ts0_a"| == 7 && |"__ts0_a_a"| == 9 && |"__ts0_a_a_a"| == 11
  {
  }

  lemma RenameAllNone(used: set<string>)
    ensures RenameAll("", [], used) == Renamer(map[], used)
  {
  }

  lemma FirstFlag(used: set<string>)
    requires "__ts0_a_a" !in used
    ensures var r := RenameAll("", [FLAG1], used);
            if "__ts0_a" in used then r == Renamer(map[FLAG1 := FLAG2], used + {"__ts0_a_a"})
            else r == Renamer(map[FLAG1 := FLAG1], used + {"__ts0_a"})
  {
    hide RenameAll, Fresh;
    RenameAllNone(used);
    RenameAllLast("", [FLAG1], used);
    assert [FLAG1][..0] == [];
    FlagNames();
    if "__ts0_a" in used {
      GivenFlag(FLAG1, "__ts0_a_a", used);
    } else {
      FreshKind("__ts0_a", used);
    }
  }

  /** One flag, renamed apart from clauses that do not use its name, or that do. */
  lemma OneFlag(c: Clauses, d: Clauses)
    requires Skolems(OrderedUsed(c)) == [FLAG1] && "__ts0_a_a" !in UsedNames(d)
    ensures DistinctMap(c, d) == if "__ts0_a" in UsedNames(d) then map[FLAG1 := FLAG2] else map[FLAG1 := FLAG1]
  {
    hide RenameAll, Skolems, OrderedUsed, DistinctMap, UsedNames;
    DistinctIsRenameAll(c, d);
    FirstFlag(UsedNames(d));
  }

  /** Two flags, renamed apart from clauses that use the name of the first. */
  lemma TwoFlags(c: Clauses, d: Clauses)
    requires Skolems(OrderedUsed(c)) == [FLAG1, FLAG2]
    requires "__ts0_a" in UsedNames(d) && "__ts0_a_a" !in UsedNames(d) && "__ts0_a_a_a" !in UsedNames(d)
    ensures DistinctMap(c, d) == map[FLAG1 := FLAG2, FLAG2 := FLAG3]
  {
    hide RenameAll, Fresh, UsedNames, Skolems, OrderedUsed, DistinctMap;
    var used := UsedNames(d);
    DistinctIsRenameAll(c, d);
    FirstFlag(used);
    RenameAllLast("", [FLAG1, FLAG2], used);
    assert [FLAG1, FLAG2][..1] == [FLAG1];
    FlagNames();
    GivenFlag(FLAG2, "__ts0_a_a_a", used + {"__ts0_a_a"});
  }

  /** What a conditional is compiled to. */
  predicate IsPick(a: Action, p: Id)
    requires Core(a)
  {
    IntUpdate(a) == Update([], PickTr(p, FLAG1), BOT) && NotesOf(a) == Notes(ASK, W.Empty)
  }

  /** One conditional as a sequence. */
  lemma PickFirst(a: Action, p: Id)
    requires Plainly(p) && Core(a) && IsPick(a, p)
    ensures ComposeAll([a]) == Update([], Both(TOP, PickTr(p, FLAG1)), BOT)
    ensures SequenceNotes([a]).tr == W.Compose(W.Empty, W.Rename(ASK, map[FLAG1 := FLAG1]))
  {
    hide Core, IntUpdate, NotesOf, Compose, ComposeNotes, DistinctMap, Skolems, OrderedUsed, Guarded, IsFalse;
    PickPlainly(p, FLAG1);
    ComposeOne(a);
    var tr := PickTr(p, FLAG1);
    PickNames(p);
    OneFlag(tr, TOP);
    NotFalse();
    ComposePlain(TOP, NO_NOTES, tr, Notes(ASK, W.Empty));
    PickRenamed(p, FLAG1, map[FLAG1 := FLAG1]);
  }

  lemma PickNames(p: Id)
    ensures UsedNames(Both(TOP, PickTr(p, FLAG1))) == {"__ts0_a", p.name} && UsedNames(TOP) == {}
    ensures Skolems(OrderedUsed(PickTr(p, FLAG1))) == [FLAG1]
  {
    hide Skolems, OrderedUsed, Guarded;
    PickOrder(p, FLAG1);
    NoSkolems();
    PickSkolems([], p, FLAG1);
    assert [] + [FLAG1, FLAG1, FLAG1, BaseSym(p)] == [FLAG1, FLAG1, FLAG1, BaseSym(p)];
    PickUsed(p, FLAG1);
    assert Used(Both(TOP, PickTr(p, FLAG1))) == {FLAG1, BaseSym(p)};
  }

  lemma NotFalse()
    ensures !IsFalse(TOP)
  {
  }

  /** Two conditionals in a row: the second one's flag is renamed. */
  lemma PickTwo(a: Action, p: Id, b: Action, q: Id)
    requires Plainly(p) && Plainly(q) && Core(a) && Core(b) && IsPick(a, p) && IsPick(b, q)
    ensures ComposeAll([a, b]) == Update([], Both(Both(TOP, PickTr(p, FLAG1)), PickTr(q, FLAG2)), BOT)
    ensures SequenceNotes([a, b]).tr ==
            W.Compose(W.Compose(W.Empty, W.Rename(ASK, map[FLAG1 := FLAG1])), W.Rename(ASK, map[FLAG1 := FLAG2]))
  {
    hide Core, IntUpdate, NotesOf, Compose, ComposeNotes, DistinctMap, Skolems, OrderedUsed, Guarded, UsedNames,
      IsFalse;
    PickPlainly(q, FLAG1);
    PickFirst(a, p);
    PickNames(p);
    PickNames(q);
    ComposeTwo(a, b);
    var c, d := Both(TOP, PickTr(p, FLAG1)), PickTr(q, FLAG1);
    FlagNames();
    OneFlag(d, c);
    assert !IsFalse(c) by { PickPlainly(p, FLAG1); BothPlain(PickTr(p, FLAG1)); }
    ComposePlain(c, SequenceNotes([a]), d, Notes(ASK, W.Empty));
    PickRenamed(q, FLAG1, map[FLAG1 := FLAG2]);
  }

  lemma BothPlain(c: Clauses)
    requires !IsFalse(c)
    ensures !IsFalse(Both(TOP, c))
  {
  }

  /** Behind the first conditional, the two flags of the others are renamed by a map that gives a name it also
      renames. */
  const CHAIN: Renaming := map[FLAG1 := FLAG2, FLAG2 := FLAG3]

  lemma ThreeCore()
    ensures Core(THREE) && PlainAction(THREE)
    ensures forall p :: Plainly(p) ==> Core(Pick(p))
    ensures Core(Sequence([Pick(Q), Pick(R)]))
    ensures Plainly(P) && Plainly(Q) && Plainly(R)
  {
    hide Core, PlainAction;
    forall p | Plainly(p) ensures Core(Pick(p)) && PlainAction(Pick(p)) { PickCore(p); }
    assert P.name == "p" && Q.name == "q" && R.name == "r";
    PairCore(Pick(Q), Pick(R));
    PairCore(Pick(P), Sequence([Pick(Q), Pick(R)]));
  }

  lemma ThreePicks()
    requires Core(Pick(P)) && Core(Pick(Q)) && Core(Pick(R))
    ensures IsPick(Pick(P), P) && IsPick(Pick(Q), Q) && IsPick(Pick(R), R)
  {
    hide Core, IsPick;
    PickUpdate(P);
    PickUpdate(Q);
    PickUpdate(R);
  }

  lemma PairCore(a: Action, b: Action)
    requires Core(a) && Core(b) && PlainAction(a) && PlainAction(b)
    ensures Core(Sequence([a, b])) && PlainAction(Sequence([a, b]))
  {
    hide CoreAtom, PlainExpr;
  }

  lemma SequenceIs(es: seq<Action>)
    requires Core(Sequence(es))
    ensures (forall e :: e in es ==> Core(e)) && IntUpdate(Sequence(es)) == ComposeAll(es)
    ensures NotesOf(Sequence(es)) == SequenceNotes(es)
  {
    hide ComposeAll, SequenceNotes;
  }

  const INNER: W.Annot :=
    W.Compose(W.Compose(W.Empty, W.Rename(ASK, map[FLAG1 := FLAG1])), W.Rename(ASK, map[FLAG1 := FLAG2]))

  /** The renaming that composing with the first conditional writes is chained. */
  lemma ChainedFlags()
    requires Core(Sequence([Pick(Q), Pick(R)])) && Core(Pick(P))
    ensures DistinctMap(IntUpdate(Sequence([Pick(Q), Pick(R)])).tr, ComposeAll([Pick(P)]).tr) == CHAIN
    ensures !W.Idempotent(CHAIN)
  {
    hide Core, IntUpdate, ComposeAll, SequenceNotes, NotesOf, DistinctMap, Skolems, OrderedUsed, UsedNames;
    ThreeCore();
    SequenceIs([Pick(Q), Pick(R)]);
    ThreePicks();
    PickFirst(Pick(P), P);
    PickNames(P);
    PickTwo(Pick(Q), Q, Pick(R), R);
    FlagNames();
    InnerOrder();
    TwoFlags(Both(Both(TOP, PickTr(Q, FLAG1)), PickTr(R, FLAG2)), Both(TOP, PickTr(P, FLAG1)));
    assert CHAIN[FLAG1] == FLAG2 && CHAIN[FLAG2] == FLAG3;
  }

  lemma InnerOrder()
    ensures Skolems(OrderedUsed(Both(Both(TOP, PickTr(Q, FLAG1)), PickTr(R, FLAG2)))) == [FLAG1, FLAG2]
  {
    hide PickTr, Skolems, Ordered, OrderedUsed;
    PickOrder(Q, FLAG1);
    PickOrder(R, FLAG2);
    var xs := [FLAG1, FLAG1, FLAG1, BaseSym(Q)];
    NoSkolems();
    PickSkolems([], Q, FLAG1);
    assert [] + xs == xs;
    PickSkolems(xs, R, FLAG2);
    FlagNames();
    BehindOrder(PickTr(Q, FLAG1), PickTr(R, FLAG2));
  }

  lemma BehindOrder(c: Clauses, d: Clauses)
    ensures OrderedUsed(Both(Both(TOP, c), d)) == OrderedUsed(c) + OrderedUsed(d)
  {
    assert OrderedUsed(Both(TOP, c)) == [] + OrderedUsed(c) == OrderedUsed(c);
  }

  /** The annotation that is written for the three conditionals. */
  lemma ThreeNotes()
    requires Core(THREE)
    ensures NotesOf(THREE).tr ==
            W.Compose(W.Compose(W.Empty, W.Rename(ASK, map[FLAG1 := FLAG1])), W.Rename(INNER, CHAIN))
  {
    hide Core, IntUpdate, ComposeAll, SequenceNotes, NotesOf, DistinctMap, ComposeNotes, Guarded, IsFalse;
    ThreeCore();
    var inner := Sequence([Pick(Q), Pick(R)]);
    ChainedFlags();
    SequenceIs([Pick(P), inner]);
    SequenceIs([Pick(Q), Pick(R)]);
    ThreePicks();
    PickFirst(Pick(P), P);
    PickTwo(Pick(Q), Q, Pick(R), R);
    ComposeTwo(Pick(P), inner);
    var c, d := Both(TOP, PickTr(P, FLAG1)), Both(Both(TOP, PickTr(Q, FLAG1)), PickTr(R, FLAG2));
    InnerPlain();
    ComposePlain(c, SequenceNotes([Pick(P)]), d, NotesOf(inner));
  }

  lemma InnerPlain()
    ensures !IsFalse(Both(TOP, PickTr(P, FLAG1))) && !IsFalse(Both(Both(TOP, PickTr(Q, FLAG1)), PickTr(R, FLAG2)))
  {
    hide Guarded;
    PickPlainly(P, FLAG1);
    PickPlainly(Q, FLAG1);
    PickPlainly(R, FLAG2);
  }

  lemma PickPlainly(p: Id, flag: Sym)
    ensures !IsFalse(PickTr(p, flag))
  {
    var c, d := Both(Fact(Lit(1)), TOP), Both(Fact(Lit(2)), TOP);
    assert !IsFalse(Either(Flag(flag, false), c)) && !IsFalse(Either(Flag(flag, true), d));
    assert !IsFalse(Both(Either(Flag(flag, false), c), Either(Flag(flag, true), d)));
  }

  // ----- what is told of the three conditionals -----

  /** What is handed over for a conditional. */
  function Answer(yes: bool): W.Event
  {
    W.Handle(W.Leaf(if yes then YES else NO))
  }

  lemma PickDenoted(p: Id, m: Renaming, scope: Renaming, eval: Sym -> bool, mod: W.Callees)
    ensures W.Denote(Shape(Pick(p)), W.Rename(ASK, m), scope, -1, false, eval, mod) ==
            Some([W.Told(Answer(eval(Lookup(W.Entered(scope, m), FLAG1))), W.Entered(scope, m))])
  {
    hide Lookup, W.Entered;
    var inside := W.Entered(scope, m);
    DenoteRename(Shape(Pick(p)), ASK, m, scope, -1, false, eval, mod);
    assert W.Ask(eval, inside, W.On(FLAG1)) == eval(Lookup(inside, FLAG1));
    assert Shape(Pick(p)) == W.If(false, W.Leaf(YES), Some(W.Leaf(NO)));
    assert W.Denote(W.Leaf(YES), W.Empty, inside, -1, false, eval, mod) == Some([W.Told(Answer(true), inside)]);
    assert W.Denote(W.Leaf(NO), W.Empty, inside, -1, false, eval, mod) == Some([W.Told(Answer(false), inside)]);
  }

  lemma PairDenoted(x: W.Action, y: W.Action, n: W.Annot, n': W.Annot, scope: Renaming, eval: Sym -> bool,
                    mod: W.Callees)
    ensures var d, d' := W.Denote(x, n, scope, -1, false, eval, mod), W.Denote(y, n', scope, -1, false, eval, mod);
            W.Denote(W.Seq([x, y]), W.Compose(W.Compose(W.Empty, n), n'), scope, -1, false, eval, mod) ==
            if d.Some? && d'.Some? then Some(d.value + d'.value) else None
  {
    var a, both := W.Seq([x, y]), W.Compose(W.Compose(W.Empty, n), n');
    W.DenoteStep(a, both, scope, -1, false, eval, mod);
    W.DenoteStep(a, both.left, scope, 1, false, eval, mod);
    assert W.Denote(a, W.Empty, scope, 0, false, eval, mod) == Some([]);
    hide W.Denote;
    var d := W.Denote(x, n, scope, -1, false, eval, mod);
    assert d.Some? ==> [] + d.value == d.value;
  }

  /** In lexical scope, each conditional is told by its own flag. */
  lemma ThreeDenoted(eval: Sym -> bool, mod: W.Callees)
    requires Core(THREE)
    ensures var d := W.Denote(Shape(THREE), NotesOf(THREE).tr, map[], -1, false, eval, mod);
            d.Some? && W.Events(d.value) == [Answer(eval(FLAG1)), Answer(eval(FLAG2)), Answer(eval(FLAG3))]
  {
    hide Core, NotesOf, W.Denote, W.Entered;
    ThreeNotes();
    ShapeTwo(Pick(P), Sequence([Pick(Q), Pick(R)]));
    ShapeTwo(Pick(Q), Pick(R));
    var first, second: Renaming := map[FLAG1 := FLAG1], map[FLAG1 := FLAG2];
    var inside := W.Entered(map[], CHAIN);
    var inner := Shape(Sequence([Pick(Q), Pick(R)]));
    PairDenoted(Shape(Pick(P)), inner, W.Rename(ASK, first), W.Rename(INNER, CHAIN), map[], eval, mod);
    PickDenoted(P, first, map[], eval, mod);
    DenoteRename(inner, INNER, CHAIN, map[], -1, false, eval, mod);
    PairDenoted(Shape(Pick(Q)), Shape(Pick(R)), W.Rename(ASK, first), W.Rename(ASK, second), inside, eval, mod);
    PickDenoted(Q, first, inside, eval, mod);
    PickDenoted(R, second, inside, eval, mod);
    W.EnteredGet(map[], first, FLAG1);
    W.EnteredGet(inside, first, FLAG1);
    W.EnteredGet(inside, second, FLAG1);
    W.EnteredGet(map[], CHAIN, FLAG1);
    W.EnteredGet(map[], CHAIN, FLAG2);
  }

  /** A condition holds if its constant is not zero. */
  lemma HoldingAt(p: Id, o: State, s: State)
    requires p.arity == 0
    ensures CondHolds(Holding(p), o, s) <==> s(p)([]) != 0
  {
    var v := Mk(o, s, s);
    assert EvalAll([], v, map[]) == [];
    assert v(BaseSym(p)) == s(p);
  }

  lemma PickTraced(p: Id, es: seq<W.Event>, o: State, s: State, t: State)
    requires p.arity == 0 && Traced(Pick(p), es, o, s, t)
    ensures es == [Answer(s(p)([]) != 0)] && Same(s, t)
  {
    hide CondHolds, True;
    HoldingAt(p, o, s);
  }

  lemma TracedTwo(a: Action, b: Action, es: seq<W.Event>, o: State, s: State, t: State)
    returns (m: State, x: seq<W.Event>, y: seq<W.Event>)
    requires Traced(Sequence([a, b]), es, o, s, t)
    ensures es == x + y && Traced(b, y, o, m, t)
    ensures exists k: State :: Same(s, k) && Traced(a, x, o, k, m)
  {
    hide Traced;
    TracedElements([a, b], es, o, s, t);
    assert [a, b][..1] == [a] && [a][..0] == [];
    m, x, y :| es == x + y && TracedAll([a, b][..1], x, o, s, m) && Traced([a, b][1], y, o, m, t);
    TracedLone(a, x, o, s, m);
  }

  lemma TracedLone(a: Action, es: seq<W.Event>, o: State, s: State, t: State)
    requires TracedAll([a], es, o, s, t)
    ensures exists k: State :: Same(s, k) && Traced(a, es, o, k, t)
  {
    hide Traced;
    var steps := [a];
    assert steps[..0] == [];
    var k: State, x: seq<W.Event>, y: seq<W.Event> :|
      es == x + y && TracedAll(steps[..0], x, o, s, k) && Traced(steps[0], y, o, k, t);
    assert x == [] && es == y;
  }

  /** A run passes the branches that the conditions choose. */
  lemma ThreeTraced(es: seq<W.Event>, o: State, s: State, t: State)
    requires Traced(THREE, es, o, s, t)
    ensures es == [Answer(s(P)([]) != 0), Answer(s(Q)([]) != 0), Answer(s(R)([]) != 0)]
  {
    hide Traced;
    var m, x, y := TracedTwo(Pick(P), Sequence([Pick(Q), Pick(R)]), es, o, s, t);
    var k: State :| Same(s, k) && Traced(Pick(P), x, o, k, m);
    PickTraced(P, x, o, k, m);
    var m', x', y' := TracedTwo(Pick(Q), Pick(R), y, o, m, t);
    var k': State :| Same(m, k') && Traced(Pick(Q), x', o, k', m');
    PickTraced(Q, x', o, k', m');
    PickTraced(R, y', o, m', t);
  }

  // ----- an unlucky order -----

  /** A conditional is walked by the answer to what its flag is called. */
  lemma PickWalked(p: Id, y: Sym, env: Renaming, eval: Sym -> bool, mod: W.Callees) returns (r: W.Walked)
    ensures W.Walks(Shape(Pick(p)), W.Rename(ASK, map[FLAG1 := y]), env, -1, eval, mod, r)
    ensures !r.gaveUp && !r.misfit && W.Events(r.log) == [Answer(eval(Lookup(env, y)))]
    ensures r.env == if FLAG1 in env then env else env[FLAG1 := Lookup(env, y)]
  {
    hide Lookup, W.Walks, W.EnterEach, W.OrderOf, Pick, Shape, Answer;
    var m: Renaming := map[FLAG1 := y];
    var inside := env[FLAG1 := Lookup(env, y)];
    EnterOne(env, m);
    UpdatedGet(env, FLAG1, Lookup(env, y));
    var inner := W.Walked([W.Told(Answer(eval(Lookup(env, y))), inside)], inside, false, false);
    AskWalked(p, inside, eval, mod);
    W.RenameWalked(Shape(Pick(p)), W.Rename(ASK, m), env, -1, eval, mod, [FLAG1], inner);
    r := W.Outside(inner, env, m);
    RestoredOne(env, y);
  }

  lemma RestoredOne(env: Renaming, y: Sym)
    ensures W.Restored(env[FLAG1 := Lookup(env, y)], env, map[FLAG1 := y]) ==
            if FLAG1 in env then env else env[FLAG1 := Lookup(env, y)]
  {
    hide Lookup;
  }

  lemma AskWalked(p: Id, env: Renaming, eval: Sym -> bool, mod: W.Callees)
    ensures W.Walks(Shape(Pick(p)), ASK, env, -1, eval, mod,
                    W.Walked([W.Told(Answer(eval(Lookup(env, FLAG1))), env)], env, false, false))
  {
    hide Lookup;
    assert W.Ask(eval, env, W.On(FLAG1)) == eval(Lookup(env, FLAG1));
    assert Shape(Pick(p)) == W.If(false, W.Leaf(YES), Some(W.Leaf(NO)));
  }

  lemma UpdatedGet(env: Renaming, x: Sym, y: Sym)
    ensures Lookup(env[x := y], x) == y
  {
  }

  lemma EnterOne(env: Renaming, m: Renaming)
    requires m.Keys == {FLAG1}
    ensures W.OrderOf([FLAG1], m) && W.EnterEach(env, m, [FLAG1]) == env[FLAG1 := Lookup(env, m[FLAG1])]
  {
    assert [FLAG1][..0] == [];
    assert W.EnterEach(env, m, [FLAG1][..0]) == env;
  }

  lemma PairWalked(x: W.Action, y: W.Action, n: W.Annot, n': W.Annot, env: Renaming, eval: Sym -> bool,
                   mod: W.Callees, l: W.Walked, q: W.Walked)
    requires W.Walks(x, n, env, -1, eval, mod, l) && !l.gaveUp && W.Walks(y, n', l.env, -1, eval, mod, q)
    ensures W.Walks(W.Seq([x, y]), W.Compose(W.Compose(W.Empty, n), n'), env, -1, eval, mod, W.Then(l, q))
  {
    hide W.Walks;
    var a, both := W.Seq([x, y]), W.Compose(W.Compose(W.Empty, n), n');
    var none := W.Walked([], env, false, false);
    NothingWalked(a, env, eval, mod);
    assert W.Then(none, l) == l;
    W.StepWalked(a, both.left, env, 1, eval, mod, none, l);
    W.StepWalked(a, both, env, -1, eval, mod, l, q);
  }

  lemma NothingWalked(a: W.Action, env: Renaming, eval: Sym -> bool, mod: W.Callees)
    requires a.Seq?
    ensures W.Walks(a, W.Empty, env, 0, eval, mod, W.Walked([], env, false, false))
  {
  }

  /** The second entry first: both flags now stand for the third conditional's. */
  lemma Unlucky()
    ensures W.OrderOf([FLAG2, FLAG1], CHAIN)
    ensures W.EnterEach(map[FLAG1 := FLAG1], CHAIN, [FLAG2, FLAG1]) == map[FLAG1 := FLAG3, FLAG2 := FLAG3]
  {
    FlagNames();
    var env: Renaming := map[FLAG1 := FLAG1];
    assert [FLAG2, FLAG1][..1] == [FLAG2] && [FLAG2][..0] == [];
    assert W.EnterEach(env, CHAIN, [FLAG2][..0]) == env;
    assert W.EnterEach(env, CHAIN, [FLAG2]) == env[FLAG2 := FLAG3];
  }

  /** Then the walk tells the second conditional by the flag of the third. */
  lemma ThreeWalked(eval: Sym -> bool, mod: W.Callees) returns (r: W.Walked)
    requires Core(THREE)
    ensures W.Walks(Shape(THREE), NotesOf(THREE).tr, map[], -1, eval, mod, r) && !r.gaveUp && !r.misfit
    ensures W.Events(r.log) == [Answer(eval(FLAG1)), Answer(eval(FLAG3)), Answer(eval(FLAG3))]
  {
    hide Core, NotesOf, W.Walks, W.EnterEach;
    ThreeNotes();
    FlagNames();
    ShapeTwo(Pick(P), Sequence([Pick(Q), Pick(R)]));
    ShapeTwo(Pick(Q), Pick(R));
    var inner := Shape(Sequence([Pick(Q), Pick(R)]));
    var first := PickWalked(P, FLAG1, map[], eval, mod);
    var env: Renaming := map[FLAG1 := FLAG1];
    assert first.env == env;
    Unlucky();
    var inside: Renaming := map[FLAG1 := FLAG3, FLAG2 := FLAG3];
    var second := PickWalked(Q, FLAG1, inside, eval, mod);
    var third := PickWalked(R, FLAG2, inside, eval, mod);
    PairWalked(Shape(Pick(Q)), Shape(Pick(R)), W.Rename(ASK, map[FLAG1 := FLAG1]), W.Rename(ASK, map[FLAG1 := FLAG2]),
               inside, eval, mod, second, third);
    W.EventsBoth(second.log, third.log);
    var rest := W.Outside(W.Then(second, third), env, CHAIN);
    W.RenameWalked(inner, W.Rename(INNER, CHAIN), env, -1, eval, mod, [FLAG2, FLAG1], W.Then(second, third));
    PairWalked(Shape(Pick(P)), inner, W.Rename(ASK, map[FLAG1 := FLAG1]), W.Rename(INNER, CHAIN), map[], eval, mod,
               first, rest);
    W.EventsBoth(first.log, rest.log);
    r := W.Then(first, rest);
  }

  lemma PickRuns(p: Id, o: State, s: State)
    requires p.arity == 0
    ensures Exec(Pick(p), o, s, s)
  {
    HoldingAt(p, o, s);
    assert True(Lit(1), o, s) && True(Lit(2), o, s);
  }

  lemma ThreeRuns(o: State, s: State)
    ensures Exec(THREE, o, s, s)
  {
    hide Exec;
    PickRuns(P, o, s);
    PickRuns(Q, o, s);
    PickRuns(R, o, s);
    BothRun(Pick(Q), Pick(R), o, s, s, s);
    BothRun(Pick(P), Sequence([Pick(Q), Pick(R)]), o, s, s, s);
    assert THREE == Sequence([Pick(P), Sequence([Pick(Q), Pick(R)])]);
  }

  lemma BothRun(a: Action, b: Action, o: State, s: State, m: State, t: State)
    requires Exec(a, o, s, m) && Exec(b, o, m, t)
    ensures Exec(Sequence([a, b]), o, s, t)
  {
    hide Exec;
    Eq.PairIs(a, b, o, s, t);
  }

  lemma Moved(u: Update, o: State, s: State, t: State) returns (v: Val)
    requires Rel(u, o, s, t)
    ensures Moves(u, v, o, s, t)
  {
    hide Holds;
    v :| SameProgram(Mk(o, s, t), v) && Holds(u.tr, v);
  }

  /** if p ...; { if q ...; if r ... } in a state where q holds and r does not: there are valuations of its transition
      formula, and for each of them some order of entries lets the walk hand over the branch of the second
      conditional that was not run. */
  lemma BranchNotRun(o: State, s: State, mod: W.Callees)
    requires s(Q)([]) != 0 && s(R)([]) == 0
    ensures Core(THREE) && PlainAction(THREE) && exists v: Val :: Moves(IntUpdate(THREE), v, o, s, s)
    ensures forall v: Val, t: State :: Moves(IntUpdate(THREE), v, o, s, t) ==>
              exists r: W.Walked ::
                && W.Walks(Shape(THREE), NotesOf(THREE).tr, map[], -1, Answers(v), mod, r) && !r.misfit && !r.gaveUp
                && !Traced(THREE, W.Events(r.log), o, s, t)
  {
    hide Core, NotesOf, W.Walks, Moves, IntUpdate, Exec, Rel, W.Denote, Traced, PlainAction, Reads;
    ThreeCore();
    ThreeRuns(o, s);
    CompilerCorrect(THREE);
    var v0 := Moved(IntUpdate(THREE), o, s, s);
    forall v: Val, t: State | Moves(IntUpdate(THREE), v, o, s, t)
      ensures exists r: W.Walked ::
                && W.Walks(Shape(THREE), NotesOf(THREE).tr, map[], -1, Answers(v), mod, r) && !r.misfit && !r.gaveUp
                && !Traced(THREE, W.Events(r.log), o, s, t)
    {
      var r := ThreeMistold(o, s, t, v, mod);
    }
  }

  lemma ThreeMistold(o: State, s: State, t: State, v: Val, mod: W.Callees) returns (r: W.Walked)
    requires s(Q)([]) != 0 && s(R)([]) == 0 && Core(THREE) && Moves(IntUpdate(THREE), v, o, s, t)
    ensures W.Walks(Shape(THREE), NotesOf(THREE).tr, map[], -1, Answers(v), mod, r) && !r.misfit && !r.gaveUp
    ensures !Traced(THREE, W.Events(r.log), o, s, t)
  {
    hide Core, NotesOf, W.Walks, Moves, IntUpdate, W.Denote, Traced, Reads, W.Fair;
    var eval := Answers(v);
    AnswersRead(v);
    FairThree(eval);
    TransitionTold(THREE, v, o, s, t, map[], eval, mod);
    ThreeDenoted(eval, mod);
    ThreeTraced([Answer(eval(FLAG1)), Answer(eval(FLAG2)), Answer(eval(FLAG3))], o, s, t);
    assert Answer(true) != Answer(false);
    assert eval(FLAG2) && !eval(FLAG3);
    r := ThreeWalked(eval, mod);
    if Traced(THREE, W.Events(r.log), o, s, t) { ThreeTraced(W.Events(r.log), o, s, t); }
  }

  lemma FairThree(eval: Sym -> bool)
    requires Core(THREE)
    ensures W.Fair(NotesOf(THREE).tr, map[], eval)
  {
    hide Core, NotesOf, W.Entered, W.Ask;
    ThreeNotes();
    AskFair(eval);
    forall scope: Renaming
      ensures W.Fair(INNER, scope, eval)
    {
      PairFair(W.Rename(ASK, map[FLAG1 := FLAG1]), W.Rename(ASK, map[FLAG1 := FLAG2]), scope, eval);
    }
    PairFair(W.Rename(ASK, map[FLAG1 := FLAG1]), W.Rename(INNER, CHAIN), map[], eval);
  }

  lemma AskFair(eval: Sym -> bool)
    ensures forall m: Renaming, scope: Renaming :: W.Fair(W.Rename(ASK, m), scope, eval)
  {
    hide W.Entered, W.Ask;
    assert forall scope :: W.Fair(ASK, scope, eval);
  }

  lemma PairFair(n: W.Annot, n': W.Annot, scope: Renaming, eval: Sym -> bool)
    ensures W.Fair(W.Compose(W.Compose(W.Empty, n), n'), scope, eval) <==>
            W.Fair(n, scope, eval) && W.Fair(n', scope, eval)
  {
    hide W.Ask, W.Entered;
    assert W.Fair(W.Compose(W.Empty, n), scope, eval) <==> W.Fair(n, scope, eval);
  }

  // ----- two "if some" in a row -----

  const C := Id("c", 0)

  function Condition(p: Id): SomeCond { SomeCond([C], Holding(p), Any, Lit(0)) }

  /** if some c. p { YES } else { NO } */
  function Choose(p: Id): Action { IfSome(Condition(p), YES, NO) }

  const TWO := Sequence([Choose(P), Choose(Q)])

  const OTHER := Sym(Skolem, Id("__ts0_b", 0))

  lemma ChooseParts(p: Id)
    ensures SomeFormula(Condition(p)) == Holding(p)
    ensures p != C ==> NoneFormula(Condition(p)) == Not(Holding(p))
  {
    assert SubstConstsAll([], ParamSub([C])) == [];
  }

  lemma ChooseCore(p: Id)
    requires Plainly(p)
    ensures Core(Choose(p)) && PlainAction(Choose(p)) && SomeOk(Condition(p))
  {
    hide SubstConsts, ParamSub;
    PickCore(p);
    assert |C.name| == 1 && C.name[0] == 'c';
    ChooseParts(p);
    HoldingOk(p);
    assert CoreAtom(YES) && CoreAtom(NO) by { PickCore(p); }
  }

  lemma HoldingOk(p: Id)
    requires Plainly(p)
    ensures p != C && SomeOk(Condition(p)) && CoreAtom(Assume(Holding(p))) && CoreAtom(Assume(Not(Holding(p))))
  {
    PickCore(p);
    assert |C.name| == 1 && C.name[0] == 'c' && p.name[0] != 'c';
  }

  /** The condition of a part. */
  function Guard(p: Id, yes: bool): Expr { if yes then Holding(p) else Not(Holding(p)) }

  /** The transition formula of a part. */
  function PartTr(p: Id, yes: bool): Clauses
  {
    Both(Both(TOP, Fact(Guard(p, yes))), Fact(Lit(if yes then 1 else 2)))
  }

  lemma GuardAssumed(p: Id, yes: bool)
    ensures AssumeUpdate(Guard(p, yes)) == Update([], Fact(Guard(p, yes)), BOT)
    ensures Syms(Guard(p, yes)) == {BaseSym(p)}
  {
    ConstSyms(BaseSym(p));
    assert SubstExprs([], map[]) == [];
    assert SubstExpr(Holding(p), map[]) == Holding(p);
    assert Leading(Holding(p)) == {} && Leading(Not(Holding(p))) == {};
    assert SkolemSub({}) == map[];
    assert Matrix(Holding(p)) == Holding(p) && Matrix(Not(Holding(p))) == Not(Holding(p));
  }

  lemma NoFlags(c: Clauses, d: Clauses)
    requires forall x :: x in Used(c) ==> !x.kind.Skolem?
    ensures DistinctMap(c, d) == map[]
  {
    InDistinct(c, d);
  }

  /** An assumption without existential symbols, compiled behind others. */
  lemma AssumedNext(c: Clauses, n: Notes, f: Expr)
    requires !IsFalse(c) && !IsFalse(Fact(f)) && forall x :: x in Syms(f) ==> !x.kind.Skolem?
    ensures Compose(Update([], c, BOT), Update([], Fact(f), BOT)) == Update([], Both(c, Fact(f)), BOT)
    ensures ComposeNotes(Update([], c, BOT), n, Update([], Fact(f), BOT), NO_NOTES).tr == W.Compose(n.tr, W.Empty)
  {
    hide DistinctMap, Compose, Syms, IsFalse;
    NoFlags(Fact(f), c);
    ComposePlain(c, n, Fact(f), NO_NOTES);
    RenameNothing(Fact(f));
  }

  const PAIR: W.Annot := W.Compose(W.Compose(W.Empty, W.Empty), W.Empty)

  /** What the guarded branch of a part is compiled to. */
  lemma PartBody(p: Id, yes: bool, f: Expr, a: Action)
    requires Core(Assume(f)) && Core(a) && f == Guard(p, yes) && a == if yes then YES else NO
    ensures ComposeAll([Assume(f), a]) == Update([], PartTr(p, yes), BOT)
    ensures SequenceNotes([Assume(f), a]).tr == PAIR
  {
    hide Core, Compose, ComposeNotes, Syms, IsFalse, IntUpdate, AssumeUpdate, NotesOf;
    var k := if yes then 1 else 2;
    GuardAssumed(p, yes);
    AssumedLit(k);
    ComposeOne(Assume(f));
    ComposeTwo(Assume(f), a);
    GuardPlain(p, yes);
    LitUsed(f, k);
    AssumedNext(TOP, NO_NOTES, f);
    AssumedNext(Both(TOP, Fact(f)), SequenceNotes([Assume(f)]), Lit(k));
    AssumeCompiled(f);
    AssumeCompiled(Lit(k));
  }

  lemma AssumeCompiled(f: Expr)
    requires Core(Assume(f))
    ensures IntUpdate(Assume(f)) == AssumeUpdate(f) && NotesOf(Assume(f)) == NO_NOTES
  {
  }

  lemma LitUsed(f: Expr, k: int)
    ensures Syms(Lit(k)) == {} && Used(Fact(Lit(k))) == {} && Used(Fact(f)) == Syms(f)
    ensures Used(Both(TOP, Fact(f))) == Syms(f) && Used(Both(Both(TOP, Fact(f)), Fact(Lit(k)))) == Syms(f)
  {
    assert Used(TOP) == {} && Used(Fact(Lit(k))) == {};
    assert Used(Both(TOP, Fact(f))) == Syms(f);
  }

  lemma GuardPlain(p: Id, yes: bool)
    ensures !IsFalse(TOP) && !IsFalse(Fact(Guard(p, yes))) && !IsFalse(Both(TOP, Fact(Guard(p, yes))))
    ensures !IsFalse(Fact(Lit(if yes then 1 else 2))) && !IsFalse(PartTr(p, yes))
  {
    assert !IsFalse(Both(TOP, Fact(Guard(p, yes))));
  }

  /** What the two parts are compiled to. */
  lemma ChooseUpdates(p: Id)
    requires Plainly(p) && Core(Choose(p)) && Core(IfPart(Condition(p), YES)) && Core(ElsePart(Condition(p), NO))
    ensures IntUpdate(IfPart(Condition(p), YES)) == Update([], PartTr(p, true), BOT)
    ensures IntUpdate(ElsePart(Condition(p), NO)) == Update([], PartTr(p, false), BOT)
    ensures exists m :: W.Idempotent(m) && NotesOf(IfPart(Condition(p), YES)).tr == Renamed(PAIR, m)
    ensures NotesOf(ElsePart(Condition(p), NO)).tr == PAIR
  {
    hide Core, Used, CoreAtom, ComposeAll, SequenceNotes, HideMap, W.Idempotent;
    HoldingOk(p);
    ChooseParts(p);
    var body := Sequence([Assume(Holding(p)), YES]);
    LocalInside([C], body);
    SequenceIs([Assume(Holding(p)), YES]);
    SequenceIs([Assume(Not(Holding(p))), NO]);
    assert Assume(Holding(p)) in [Assume(Holding(p)), YES] && Assume(Not(Holding(p))) in [Assume(Not(Holding(p))), NO];
    assert YES in [Assume(Holding(p)), YES] && NO in [Assume(Not(Holding(p))), NO];
    PartBody(p, true, Holding(p), YES);
    PartBody(p, false, Not(Holding(p)), NO);
    var u := IntUpdate(body);
    HideIdempotent([C], u.mod, u.tr);
    assert NotesOf(IfPart(Condition(p), YES)).tr == Renamed(PAIR, HideMap([C], u.mod, u.tr));
    GuardAssumed(p, true);
    LitUsed(Holding(p), 1);
    RenameKeeps(u.tr, HideMap([C], u.mod, u.tr));
    assert Select([], [C], false) == [] && Rename(BOT, HideMap([C], u.mod, u.pre)) == BOT;
  }

  lemma LocalInside(xs: seq<Id>, body: Action)
    requires Core(Local(xs, body))
    ensures Core(body) && IntUpdate(Local(xs, body)) == Hide(xs, IntUpdate(body))
    ensures var u, n := IntUpdate(body), NotesOf(body);
            NotesOf(Local(xs, body)).tr == Renamed(n.tr, HideMap(xs, u.mod, u.tr))
  {
  }

  lemma OtherFlag(p: Id, used: set<string>)
    requires Plainly(p) && used == {p.name}
    ensures FreshBool(used) == FLAG1 && FreshBool(used + {Spell(FLAG1)}) == OTHER
  {
    assert |"__ts0_a"| == 7 && |p.name| == 1;
    FlagName(used);
    assert "__ts0" + "" == "__ts0" && "__ts0" + "_b" == "__ts0_b" && "__ts0" + "_a" == "__ts0_a";
    assert Suffix(0) == "a" && Suffix(1) == "b";
    assert "__ts0" + "_" + "b" == "__ts0_b" && "__ts0" + "_" + "a" == "__ts0_a";
    assert "__ts0_a"[6] == 'a' && "__ts0_b"[6] == 'b';
    var both := used + {"__ts0_a"};
    assert Suffixed("__ts0", 0) == "__ts0_a" && Suffixed("__ts0", 1) == "__ts0_b";
    assert FirstUnused("__ts0", both - {"__ts0_a"}, 1) == "__ts0_b";
    assert FirstUnused("__ts0", both, 0) == "__ts0_b";
  }

  lemma SomeCompiled(a: Action)
    requires a.IfSome? && Core(a)
    ensures var p, q := IfPart(a.some, a.thn), ElsePart(a.some, a.els);
            && Core(p) && Core(q) && IntUpdate(a) == Join(IntUpdate(p), IntUpdate(q))
            && NotesOf(a) == SwappedNotes(IntUpdate(p), NotesOf(p), IntUpdate(q), NotesOf(q))
  {
    CoreIfPart(a.some, a.thn, a.els);
    hide IfPart, ElsePart, Join, SwappedNotes, Core;
  }

  lemma JoinPlain(c: Clauses, n: Notes, d: Clauses, n': Notes)
    requires !IsFalse(c) && !IsFalse(d)
    ensures Join(Update([], c, BOT), Update([], d, BOT)).tr == Or(Both(c, TOP), Both(d, TOP))
    ensures SwappedNotes(Update([], c, BOT), n, Update([], d, BOT), n').tr ==
            W.Branch(Negated(OrCond(Both(c, TOP), Both(d, TOP))), n.tr, n'.tr)
  {
    hide OrCond;
    assert Select([], [], false) == [] && DiffFrame([], []) == TOP;
    assert And(c, TOP) == Both(c, TOP) && And(d, TOP) == Both(d, TOP);
    hide And, Or;
  }

  /** The annotation of "if some" asks for the negation of its second flag. */
  lemma ChooseNotes(p: Id)
    requires Plainly(p) && Core(Choose(p))
    ensures var n := NotesOf(Choose(p)).tr;
            && n.Branch? && n.cond == W.Off(OTHER)
            && Core(IfPart(Condition(p), YES)) && n.thn == NotesOf(IfPart(Condition(p), YES)).tr
            && Core(ElsePart(Condition(p), NO)) && n.els == NotesOf(ElsePart(Condition(p), NO)).tr
    ensures OrCond(Both(PartTr(p, true), TOP), Both(PartTr(p, false), TOP)) == W.On(OTHER)
    ensures IntUpdate(Choose(p)).tr ==
            Branch(FLAG1, Both(PartTr(p, true), TOP), OTHER, Both(PartTr(p, false), TOP))
  {
    var some := Condition(p);
    SomeCompiled(Choose(p));
    hide Core, IfPart, ElsePart, Condition, IntUpdate, NotesOf, UsedNames, FreshBool, Join, SwappedNotes, PartTr;
    ChooseUpdates(p);
    GuardPlain(p, true);
    GuardPlain(p, false);
    JoinPlain(PartTr(p, true), NotesOf(IfPart(some, YES)), PartTr(p, false), NotesOf(ElsePart(some, NO)));
    PartNames(p);
    OtherFlag(p, {p.name});
  }

  lemma PartNames(p: Id)
    ensures Used(Both(PartTr(p, true), TOP)) == {BaseSym(p)} && Used(Both(PartTr(p, false), TOP)) == {BaseSym(p)}
    ensures UsedNames(Both(PartTr(p, true), TOP)) + UsedNames(Both(PartTr(p, false), TOP)) == {p.name}
    ensures !IsFalse(Both(PartTr(p, true), TOP)) && !IsFalse(Both(PartTr(p, false), TOP))
  {
    GuardAssumed(p, true);
    GuardAssumed(p, false);
    LitUsed(Guard(p, true), 1);
    LitUsed(Guard(p, false), 2);
    GuardPlain(p, true);
    GuardPlain(p, false);
    assert Used(TOP) == {} && Used(PartTr(p, true)) == {BaseSym(p)} && Used(PartTr(p, false)) == {BaseSym(p)};
    hide PartTr;
    assert Spell(BaseSym(p)) == p.name;
  }

  /** The flags of "if some" keep their names where nothing uses them. */
  lemma ChooseFixes(p: Id)
    requires Plainly(p)
    ensures Fixes(DistinctMap(Branch(FLAG1, Both(PartTr(p, true), TOP), OTHER, Both(PartTr(p, false), TOP)), TOP))
  {
    hide Branch, PartTr, DistinctMap, Existentials, Fixes;
    var c := Branch(FLAG1, Both(PartTr(p, true), TOP), OTHER, Both(PartTr(p, false), TOP));
    BranchUsed(FLAG1, Both(PartTr(p, true), TOP), OTHER, Both(PartTr(p, false), TOP));
    PartNames(p);
    var xs := Existentials(c);
    assert "__ts0_a"[6] == 'a' && "__ts0_b"[6] == 'b';
    SkolemsDiffer(c);
    assert UsedNames(TOP) == {};
    forall k | 0 <= k < |xs|
      ensures xs[k] == FLAG1 || xs[k] == OTHER
    {
      assert xs[k] in xs;
    }
    DistinctFixes(c, TOP);
  }

  /** A valuation of "if some" has its second flag on exactly if the condition is false. */
  lemma ChooseFlag(p: Id, v: Val, o: State, s: State, t: State)
    requires Plainly(p) && Core(Choose(p)) && Moves(IntUpdate(Choose(p)), v, o, s, t)
    ensures IsOn(OTHER, v) <==> s(p)([]) == 0
    ensures Same(s, t)
  {
    var some := Condition(p);
    SomeCompiled(Choose(p));
    ChooseNotes(p);
    ChooseUpdates(p);
    AnswersRead(v);
    hide Core, IfPart, ElsePart, IntUpdate, NotesOf, Moves, Reads, Join, Branch, PartTr, OrCond, SwappedNotes, Exec,
      Rel;
    var a, b := IfPart(some, YES), ElsePart(some, NO);
    GuardPlain(p, true);
    GuardPlain(p, false);
    FramesPlain(PartTr(p, true), PartTr(p, false));
    JoinMoves(IntUpdate(a), IntUpdate(b), v, o, s, t, map[], Answers(v));
    assert W.Ask(Answers(v), map[], W.On(OTHER)) == IsOn(OTHER, v);
    if IsOn(OTHER, v) {
      MovesRel(IntUpdate(b), v, o, s, t);
      CompilerCorrect(b);
      ElseRuns(p, o, s, t);
    } else {
      MovesRel(IntUpdate(a), v, o, s, t);
      CompilerCorrect(a);
      ThenRuns(p, o, s, t);
    }
  }

  lemma FramesPlain(c: Clauses, d: Clauses)
    requires !IsFalse(c) && !IsFalse(d)
    ensures And(c, DiffFrame([], [])) == Both(c, TOP) && And(d, DiffFrame([], [])) == Both(d, TOP)
  {
    assert Select([], [], false) == [];
  }

  lemma ThenRuns(p: Id, o: State, s: State, t: State)
    requires Plainly(p) && Exec(IfPart(Condition(p), YES), o, s, t)
    ensures s(p)([]) != 0 && Same(s, t)
  {
    hide Exec, True;
    HoldingOk(p);
    ChooseParts(p);
    LocalRuns([C], Sequence([Assume(Holding(p)), YES]), o, s, t);
    var s1: State, t1: State :|
      SameOff([C], s1, s) && SameOff([C], t1, t) && Exec(Sequence([Assume(Holding(p)), YES]), o, s1, t1);
    GuardIs(Holding(p), YES, o, s1, t1);
    AssumeIs(Lit(1), o, s1, t1);
    HoldingTrue(p, o, s1);
    assert s1(p) == s(p);
  }

  lemma LocalRuns(xs: seq<Id>, body: Action, o: State, s: State, t: State)
    requires Exec(Local(xs, body), o, s, t)
    ensures SameOn(xs, s, t)
    ensures exists s1: State, t1: State :: SameOff(xs, s1, s) && SameOff(xs, t1, t) && Exec(body, o, s1, t1)
  {
    hide SameOff, SameOn;
  }

  lemma HoldingTrue(p: Id, o: State, s: State)
    ensures True(Holding(p), o, s) <==> s(p)([]) != 0
    ensures True(Not(Holding(p)), o, s) <==> s(p)([]) == 0
  {
    var v := Now(o, s);
    assert v(BaseSym(p)) == s(p);
    forall env: Env
      ensures Eval(Holding(p), v, env) == s(p)([])
      ensures Eval(Not(Holding(p)), v, env) == Truth(s(p)([]) == 0)
    {
      assert EvalAll([], v, env) == [];
    }
    assert Eval(Holding(p), v, map[]) == s(p)([]) && Eval(Not(Holding(p)), v, map[]) == Truth(s(p)([]) == 0);
  }

  lemma ElseRuns(p: Id, o: State, s: State, t: State)
    requires Plainly(p) && Exec(ElsePart(Condition(p), NO), o, s, t)
    ensures s(p)([]) == 0 && Same(s, t)
  {
    hide Exec, True;
    HoldingOk(p);
    ChooseParts(p);
    GuardIs(Not(Holding(p)), NO, o, s, t);
    AssumeIs(Lit(2), o, s, t);
    HoldingTrue(p, o, s);
  }

  /** A run of "if some" passes the empty assumption and the branch that the condition chooses. */
  lemma ChooseTraced(p: Id, es: seq<W.Event>, o: State, s: State, t: State)
    requires Plainly(p) && Traced(Choose(p), es, o, s, t)
    ensures es == [ASSUMED, Answer(s(p)([]) != 0)] && Same(s, t)
  {
    hide Picked, CondHolds, True;
    HoldingOk(p);
    if w: State, t1: State :|
      SameOn([C], s, t) && Picked(Condition(p), o, s, w) && SameOff([C], t1, t) && Traced(YES, es[1..], o, w, t1) {
      PickedHolds(p, o, s, w);
      assert es == [es[0]] + es[1..];
    } else {
      NoWitness(p, o, s);
      assert es == [es[0]] + es[1..];
    }
  }

  lemma PickedHolds(p: Id, o: State, s: State, w: State)
    requires Plainly(p) && p != C && Picked(Condition(p), o, s, w)
    ensures s(p)([]) != 0 && SameOff([C], w, s)
  {
    hide CondHolds;
    HoldingAt(p, o, w);
  }

  lemma NoWitness(p: Id, o: State, s: State)
    requires Plainly(p)
    ensures (forall w: State :: !Witnesses(Condition(p), o, s, w)) ==> s(p)([]) == 0
  {
    hide CondHolds;
    HoldingAt(p, o, s);
    if s(p)([]) != 0 { assert Witnesses(Condition(p), o, s, s); }
  }

  /** The answer to the negated flag decides, wherever the annotation stands. */
  lemma ChooseDenoted(p: Id, scope: Renaming, eval: Sym -> bool, mod: W.Callees)
    requires Plainly(p) && Core(Choose(p))
    ensures var d := W.Denote(Shape(Choose(p)), NotesOf(Choose(p)).tr, scope, -1, false, eval, mod);
            d.Some? && W.Events(d.value) == [ASSUMED, Answer(!eval(OTHER))]
  {
    hide Core, NotesOf, IntUpdate, W.Denote, IfPart, ElsePart, Condition;
    ChooseNotes(p);
    SomeCompiled(Choose(p));
    ChooseUpdates(p);
    var n := NotesOf(Choose(p)).tr;
    SomeBranch(Choose(p), n, scope, false, eval, mod);
    if eval(OTHER) {
      WrappedDenoted(NO, scope, eval, mod);
    } else {
      var m :| W.Idempotent(m) && n.thn == Renamed(PAIR, m);
      DenoteRenamed(W.Wrapped(true, Shape(YES)), PAIR, m, scope, -1, false, eval, mod);
      WrappedDenoted(YES, W.Entered(scope, m), eval, mod);
    }
  }

  lemma WrappedDenoted(a: Action, scope: Renaming, eval: Sym -> bool, mod: W.Callees)
    requires a.Assume?
    ensures var d := W.Denote(W.Wrapped(true, Shape(a)), PAIR, scope, -1, false, eval, mod);
            d.Some? && W.Events(d.value) == [ASSUMED, W.Handle(W.Leaf(a))]
  {
    hide W.Denote;
    PairDenoted(W.Leaf(YES), W.Leaf(a), W.Empty, W.Empty, scope, eval, mod);
    DenoteLeaf(YES, W.Empty, scope, false, eval, mod);
    DenoteLeaf(a, W.Empty, scope, false, eval, mod);
    W.EventsBoth(W.Denote(W.Leaf(YES), W.Empty, scope, -1, false, eval, mod).value,
                 W.Denote(W.Leaf(a), W.Empty, scope, -1, false, eval, mod).value);
  }

  /** The annotation of one action behind another. */
  lemma TwoNotes(x: Action, y: Action, z: Action)
    requires Core(x) && Core(y) && Core(z) && z == Sequence([x, y])
    ensures var a, b := IntUpdate(x), IntUpdate(y);
            var c := Compose(NullUpdate(), a);
            && IntUpdate(z) == Compose(c, b)
            && NotesOf(z).tr ==
               LinkNote(LinkNote(W.Empty, NotesOf(x).tr, DistinctMap(a.tr, TOP), [], MidMap(NullUpdate(), a)),
                        NotesOf(y).tr, DistinctMap(b.tr, c.tr), c.mod, MidMap(c, b))
  {
    hide Core, IntUpdate, NotesOf, Compose, DistinctMap, MidMap, LinkNote, OrCond, ComposeAll, SequenceNotes;
    SequenceIs([x, y]);
    ComposeOne(x);
    ComposeTwo(x, y);
  }

  lemma TwoDenoted(eval: Sym -> bool, mod: W.Callees)
    requires Core(TWO) && Core(Choose(P)) && Core(Choose(Q)) && Plainly(P) && Plainly(Q)
    ensures var d := W.Denote(Shape(TWO), NotesOf(TWO).tr, map[], -1, false, eval, mod);
            d.Some? && W.Events(d.value) == [ASSUMED, Answer(!eval(OTHER)), ASSUMED, Answer(!eval(OTHER))]
  {
    hide Core, IntUpdate, NotesOf, Compose, DistinctMap, MidMap, LinkNote, OrCond, ComposeAll, SequenceNotes, W.Denote,
      Choose, Shape, MidNew, MidBase, W.Entered;
    TwoNotes(Choose(P), Choose(Q), TWO);
    var a, b := IntUpdate(Choose(P)), IntUpdate(Choose(Q));
    var c := Compose(NullUpdate(), a);
    var es := [Shape(Choose(P)), Shape(Choose(Q))];
    var rd, mm, rd', mm' := DistinctMap(a.tr, TOP), MidMap(NullUpdate(), a), DistinctMap(b.tr, c.tr), MidMap(c, b);
    var n := LinkNote(W.Empty, NotesOf(Choose(P)).tr, rd, [], mm);
    ShapeTwo(Choose(P), Choose(Q));
    DenoteWhole(es, NotesOf(TWO).tr, map[], false, eval, mod);
    LinkDenotes(es, 1, n, NotesOf(Choose(Q)).tr, rd', c.mod, mm', map[], false, eval, mod);
    var scope := W.Entered(map[], MidNew(c.mod, mm'));
    LinkDenotes(es, 0, W.Empty, NotesOf(Choose(P)).tr, rd, [], mm, scope, false, eval, mod);
    NothingDenoted(es, W.Entered(scope, MidNew([], mm)), eval, mod);
    var inside, inside' :=
      W.Entered(W.Entered(scope, MidBase([], mm)), rd), W.Entered(W.Entered(map[], MidBase(c.mod, mm')), rd');
    ChooseDenoted(P, inside, eval, mod);
    ChooseDenoted(Q, inside', eval, mod);
    var x := W.Denote(es[0], NotesOf(Choose(P)).tr, inside, -1, false, eval, mod).value;
    var y := W.Denote(es[1], NotesOf(Choose(Q)).tr, inside', -1, false, eval, mod).value;
    assert [] + x == x;
    W.EventsBoth(x, y);
  }

  lemma NothingDenoted(es: seq<W.Action>, scope: Renaming, eval: Sym -> bool, mod: W.Callees)
    ensures W.Denote(W.Seq(es), W.Empty, scope, 0, false, eval, mod) == Some([])
  {
  }

  /** No flag is asked on the way, only the negations. */
  predicate NoFlagAsked(n: W.Annot)
  {
    match n
    case Empty => true
    case Conj(l, r) => NoFlagAsked(l) && NoFlagAsked(r)
    case Compose(l, r) => NoFlagAsked(l) && NoFlagAsked(r)
    case Rename(a, _) => NoFlagAsked(a)
    case Branch(c, t, e) => !c.On? && NoFlagAsked(t) && NoFlagAsked(e)
  }

  lemma {:induction false} NothingAsked(n: W.Annot, scope: Renaming, eval: Sym -> bool)
    requires NoFlagAsked(n)
    ensures W.Asked(n, scope, eval) == {} && W.Tidy(n, scope, eval) && W.Settled(n, scope, eval)
  {
    hide W.Ask;
    match n
    case Empty =>
    case Conj(l, r) => NothingAsked(l, scope, eval); NothingAsked(r, scope, eval);
    case Compose(l, r) => NothingAsked(l, scope, eval); NothingAsked(r, scope, eval);
    case Rename(a, m) => NothingAsked(a, W.Entered(scope, m), eval);
    case Branch(_, t, e) => NothingAsked(t, scope, eval); NothingAsked(e, scope, eval);
  }

  lemma LinkAsksNothing(n: W.Annot, n': W.Annot, rd: Renaming, mod: seq<Id>, mm: Renaming)
    requires NoFlagAsked(n) && NoFlagAsked(n')
    ensures NoFlagAsked(LinkNote(n, n', rd, mod, mm))
  {
    RenamedAsksNothing(n, MidNew(mod, mm));
    RenamedAsksNothing(n', rd);
    RenamedAsksNothing(Renamed(n', rd), MidBase(mod, mm));
    hide Renamed, MidNew, MidBase;
  }

  lemma RenamedAsksNothing(n: W.Annot, m: Renaming)
    requires NoFlagAsked(n)
    ensures NoFlagAsked(Renamed(n, m))
  {
  }

  lemma ChooseAsksNothing(p: Id)
    requires Plainly(p) && Core(Choose(p))
    ensures NoFlagAsked(NotesOf(Choose(p)).tr)
  {
    hide Core, NotesOf, IntUpdate, IfPart, ElsePart, Condition, Renamed, W.Idempotent, PartTr, OrCond, Branch, Join,
      SwappedNotes;
    ChooseNotes(p);
    SomeCompiled(Choose(p));
    ChooseUpdates(p);
    assert NoFlagAsked(PAIR);
    var m :| W.Idempotent(m) && NotesOf(IfPart(Condition(p), YES)).tr == Renamed(PAIR, m);
    RenamedAsksNothing(PAIR, m);
  }

  lemma TwoAsksNothing(eval: Sym -> bool)
    requires Core(TWO) && Core(Choose(P)) && Core(Choose(Q)) && Plainly(P) && Plainly(Q)
    ensures var n := NotesOf(TWO).tr;
            W.Asked(n, map[], eval) == {} && W.Tidy(n, map[], eval) && W.Settled(n, map[], eval)
  {
    hide Core, IntUpdate, NotesOf, Compose, DistinctMap, MidMap, LinkNote, ComposeAll, Choose, W.Asked, W.Tidy,
      W.Settled;
    TwoNotes(Choose(P), Choose(Q), TWO);
    var a, b := IntUpdate(Choose(P)), IntUpdate(Choose(Q));
    var c := Compose(NullUpdate(), a);
    ChooseAsksNothing(P);
    ChooseAsksNothing(Q);
    LinkAsksNothing(W.Empty, NotesOf(Choose(P)).tr, DistinctMap(a.tr, TOP), [], MidMap(NullUpdate(), a));
    LinkAsksNothing(LinkNote(W.Empty, NotesOf(Choose(P)).tr, DistinctMap(a.tr, TOP), [], MidMap(NullUpdate(), a)),
                    NotesOf(Choose(Q)).tr, DistinctMap(b.tr, c.tr), c.mod, MidMap(c, b));
    NothingAsked(NotesOf(TWO).tr, map[], eval);
  }

  /** The second flag of the first "if some" has, in a valuation of both, the value that its own condition gives. */
  lemma FirstChosen(v: Val, o: State, s: State, t: State)
    requires Core(TWO) && Core(Choose(P)) && Core(Choose(Q)) && Plainly(P) && Plainly(Q)
    requires Moves(IntUpdate(TWO), v, o, s, t)
    ensures IsOn(OTHER, v) <==> s(P)([]) == 0
  {
    hide Core, IntUpdate, NotesOf, Compose, DistinctMap, MidMap, LinkNote, ComposeAll, Choose, Moves, MidNew, MidBase,
      Fixes, Branch, PartTr, WellFormed;
    TwoNotes(Choose(P), Choose(Q), TWO);
    ChooseNotes(P);
    ChooseFixes(P);
    var a, b := IntUpdate(Choose(P)), IntUpdate(Choose(Q));
    var c := Compose(NullUpdate(), a);
    SequenceFormed([Choose(P)]);
    ComposeOne(Choose(P));
    NullFormed();
    var m, w, w2 := ComposeMoves(c, b, v, o, s, t);
    var m0, w0, w1 := ComposeMoves(NullUpdate(), a, w, o, s, m);
    NullMoves(w0, o, s, m0);
    FlagThrough(v, c.mod, MidMap(c, b), w);
    FlagBehind(w, [], MidMap(NullUpdate(), a), DistinctMap(a.tr, TOP), w1);
    ChooseFlag(P, w1, o, m0, m);
  }

  lemma NullFormed()
    ensures WellFormed(NullUpdate())
  {
  }

  lemma NullMoves(v: Val, o: State, s: State, t: State)
    requires Moves(NullUpdate(), v, o, s, t)
    ensures Same(s, t)
  {
  }

  lemma FlagThrough(v: Val, mod: seq<Id>, mm: Renaming, w: Val)
    requires forall x: Sym :: !Program(x) ==> w(x) == Pull(v, MidNew(mod, mm))(x)
    ensures IsOn(OTHER, w) <==> IsOn(OTHER, v)
  {
    assert w(OTHER) == Pull(v, MidNew(mod, mm))(OTHER);
    LookupOut(MidNew(mod, mm), OTHER);
  }

  lemma FlagBehind(v: Val, mod: seq<Id>, mm: Renaming, rd: Renaming, w: Val)
    requires Fixes(rd) && w == Pull(Pull(v, MidBase(mod, mm)), rd)
    ensures IsOn(OTHER, w) <==> IsOn(OTHER, v)
  {
    W.LookupEither(rd, OTHER);
    assert Lookup(rd, OTHER) == OTHER;
    LookupOut(MidBase(mod, mm), OTHER);
    assert w(OTHER) == Pull(v, MidBase(mod, mm))(OTHER) == v(OTHER);
  }

  lemma TwoTraced(es: seq<W.Event>, o: State, s: State, t: State)
    requires Plainly(P) && Plainly(Q) && Traced(TWO, es, o, s, t)
    ensures es == [ASSUMED, Answer(s(P)([]) != 0), ASSUMED, Answer(s(Q)([]) != 0)]
  {
    hide Traced, Choose;
    var m, x, y := TracedTwo(Choose(P), Choose(Q), es, o, s, t);
    var k: State :| Same(s, k) && Traced(Choose(P), x, o, k, m);
    ChooseTraced(P, x, o, k, m);
    ChooseTraced(Q, y, o, m, t);
  }

  /** Two "if some" in a row in a state where the first condition holds and the second does not: every walk hands over
      the branch of the second that was not run, because it asks for the first one's flag. */
  lemma NegatedFlagMisread(v: Val, o: State, s: State, t: State, mod: W.Callees, r: W.Walked)
    requires s(P)([]) != 0 && s(Q)([]) == 0 && Core(TWO) && Moves(IntUpdate(TWO), v, o, s, t)
    requires W.Walks(Shape(TWO), NotesOf(TWO).tr, map[], -1, Answers(v), mod, r)
    ensures !r.misfit && !r.gaveUp && !Traced(TWO, W.Events(r.log), o, s, t)
  {
    hide Core, NotesOf, W.Walks, Moves, IntUpdate, W.Denote, Traced, W.Tidy, W.Settled, W.Asked, W.Bound, Choose;
    TwoCore();
    var eval := Answers(v);
    TwoAsksNothing(eval);
    TwoDenoted(eval, mod);
    FirstChosen(v, o, s, t);
    W.WalkFaithful(Shape(TWO), NotesOf(TWO).tr, map[], map[], -1, false, eval, mod, r);
    assert Answer(true) != Answer(false);
    if Traced(TWO, W.Events(r.log), o, s, t) { TwoTraced(W.Events(r.log), o, s, t); }
  }

  lemma TwoCore()
    ensures Core(TWO) && PlainAction(TWO) && Core(Choose(P)) && Core(Choose(Q)) && Plainly(P) && Plainly(Q)
  {
    hide Core, PlainAction, Choose;
    assert P.name == "p" && Q.name == "q";
    ChooseCore(P);
    ChooseCore(Q);
    PairCore(Choose(P), Choose(Q));
  }

  /** And there are such valuations. */
  lemma TwoMoves(o: State, s: State) returns (v: Val)
    requires s(P)([]) != 0 && s(Q)([]) == 0
    ensures Core(TWO) && PlainAction(TWO) && Moves(IntUpdate(TWO), v, o, s, s)
  {
    hide Core, PlainAction, Choose, Exec, IntUpdate, Moves, Rel;
    TwoCore();
    ChooseRuns(P, o, s);
    ChooseRuns(Q, o, s);
    BothRun(Choose(P), Choose(Q), o, s, s, s);
    assert TWO == Sequence([Choose(P), Choose(Q)]);
    CompilerCorrect(TWO);
    v := Moved(IntUpdate(TWO), o, s, s);
  }

  lemma ChooseRuns(p: Id, o: State, s: State)
    requires Plainly(p)
    ensures Exec(Choose(p), o, s, s)
  {
    hide CondHolds;
    HoldingOk(p);
    HoldingAt(p, o, s);
    assert True(Lit(1), o, s) && True(Lit(2), o, s);
    forall w: State | SameOff([C], w, s)
      ensures CondHolds(Holding(p), o, w) <==> s(p)([]) != 0
    {
      HoldingAt(p, o, w);
    }
    assert SameOff([C], s, s) && SameOn([C], s, s);
    if s(p)([]) != 0 { assert Picked(Condition(p), o, s, s); }
  }

  // ----- a binding left behind -----

  const X := Id("x", 0)
  const Y := Id("y", 0)

  function Set(i: Id, e: Expr): Action { Assign(Target(i, []), e) }

  const SET1 := Set(X, Lit(1))
  const SET2 := Set(X, Lit(2))
  const READ := Set(Y, Holding(X))

  /** x := 1; x := 2; y := x */
  const STEPS := Sequence([SET1, SET2, READ])

  const NEW_X := NewSym(X)
  const BASE_X := BaseSym(X)

  /** The annotation of the three assignments, where m is the value of x in the middle of the first two. */
  function StepsNote(m: Sym): W.Annot
  {
    W.Compose(W.Compose(W.Rename(W.Compose(W.Empty, W.Empty), map[NEW_X := m]), W.Rename(W.Empty, map[BASE_X := m])),
              W.Rename(W.Empty, map[BASE_X := NEW_X]))
  }

  lemma SetCompiled(i: Id, e: Expr)
    requires i.arity == 0 && (e.Lit? || e == Holding(X))
    ensures Core(Set(i, e)) && NotesOf(Set(i, e)) == NO_NOTES && IntUpdate(Set(i, e)).mod == [i]
    ensures forall x :: x in Used(IntUpdate(Set(i, e)).tr) ==> !x.kind.Skolem?
  {
    ConstSyms(BASE_X);
    ConstSyms(NewSym(i));
    SetExpr(i, e);
    SetAtom(i, e);
    assert Syms(e) <= {BASE_X};
    OpSyms(Equals, App(NewSym(i), []), e);
    hide Syms, CoreAtom, AssignExpr;
  }

  lemma SetAtom(i: Id, e: Expr)
    requires i.arity == 0 && (e.Lit? || e == Holding(X))
    ensures CoreAtom(Set(i, e))
  {
    assert IndexSub("V", []) == map[];
    assert SymsAll([]) == {};
  }

  lemma SetExpr(i: Id, e: Expr)
    requires e.Lit? || e == Holding(X)
    ensures AssignExpr(Target(i, []), e) == Op(Equals, App(NewSym(i), []), e)
  {
    assert Holes("V", 0) == [] && IndexSub("V", []) == map[];
    assert SubstExprs([], map[]) == [];
    assert SubstExpr(e, map[]) == e;
  }

  lemma OneId(i: Id, j: Id)
    ensures UpdatedJoin([], [i]) == [i] && UpdatedJoin([i], [i]) == [i]
    ensures i != j ==> Select([i], [j], true) == []
  {
    assert AddNew([], [i]) == [i] by { assert [i][..0] == []; }
    assert AddNew([i], [i]) == [i] by { assert [i][..0] == []; }
    assert AddNew([], []) == [];
    if i != j { assert [i][..0] == []; }
  }

  /** The annotation of an assignment behind others. */
  lemma SetNote(u1: Update, n: Notes, a: Action)
    requires Core(a) && NotesOf(a) == NO_NOTES && forall x :: x in Used(IntUpdate(a).tr) ==> !x.kind.Skolem?
    ensures var u2 := IntUpdate(a);
            var mm := MidMap(u1, u2);
            && ComposeNotes(u1, n, u2, NotesOf(a)).tr ==
               W.Compose(Renamed(n.tr, MidNew(u1.mod, mm)), Renamed(W.Empty, MidBase(u1.mod, mm)))
            && Compose(u1, u2).mod == UpdatedJoin(u1.mod, u2.mod)
  {
    hide Core, IntUpdate, NotesOf, Used, DistinctMap, MidMap, MidNew, MidBase, OrCond, Link, Or, And, UpdatedJoin;
    NoFlags(IntUpdate(a).tr, u1.tr);
  }

  lemma StepsCore()
    ensures Core(SET1) && Core(SET2) && Core(READ) && Core(STEPS)
  {
    hide Core, Set;
    SetCompiled(X, Lit(1));
    SetCompiled(X, Lit(2));
    SetCompiled(Y, Holding(X));
    assert Core(SET1) && Core(SET2) && Core(READ);
    AllCore([SET1, SET2, READ]);
  }

  lemma AllCore(es: seq<Action>)
    requires forall e :: e in es ==> Core(e)
    ensures Core(Sequence(es))
  {
    hide CoreAtom;
  }

  lemma ComposeThree(a: Action, b: Action, c: Action, z: Action)
    requires Core(a) && Core(b) && Core(c) && Core(z) && z == Sequence([a, b, c])
    ensures var u1 := Compose(NullUpdate(), IntUpdate(a));
            var u2 := Compose(u1, IntUpdate(b));
            var n1 := ComposeNotes(NullUpdate(), NO_NOTES, IntUpdate(a), NotesOf(a));
            NotesOf(z) == ComposeNotes(u2, ComposeNotes(u1, n1, IntUpdate(b), NotesOf(b)), IntUpdate(c), NotesOf(c))
  {
    hide Core, IntUpdate, NotesOf, Compose, ComposeNotes, ComposeAll, SequenceNotes;
    SequenceIs([a, b, c]);
    ComposeOne(a);
    ComposeTwo(a, b);
    LastComposed([a, b, c], [a, b], c);
  }

  lemma LastComposed(es: seq<Action>, init: seq<Action>, last: Action)
    requires (forall e :: e in es ==> Core(e)) && es == init + [last]
    ensures (forall e :: e in init ==> Core(e)) && Core(last)
    ensures SequenceNotes(es) == ComposeNotes(ComposeAll(init), SequenceNotes(init), IntUpdate(last), NotesOf(last))
  {
    hide Core, IntUpdate, NotesOf, ComposeNotes;
    assert es[..|es| - 1] == init;
  }

  /** What is written for the three assignments. */
  lemma StepsNotes() returns (m: Sym)
    ensures Core(STEPS) && m.kind.Skolem? && NotesOf(STEPS).tr == StepsNote(m)
  {
    hide Core, IntUpdate, NotesOf, Used, MidMap, Compose, ComposeNotes, UpdatedJoin, Set;
    StepsCore();
    SetsCompiled();
    ComposeThree(SET1, SET2, READ, STEPS);
    m := ThreeComposed(SET1, SET2, READ);
  }

  predicate Sets(a: Action, i: Id)
    requires Core(a)
  {
    && NotesOf(a) == NO_NOTES && IntUpdate(a).mod == [i]
    && forall x :: x in Used(IntUpdate(a).tr) ==> !x.kind.Skolem?
  }

  lemma SetsCompiled()
    requires Core(SET1) && Core(SET2) && Core(READ)
    ensures Sets(SET1, X) && Sets(SET2, X) && Sets(READ, Y)
  {
    hide Core, IntUpdate, NotesOf, Used, Set;
    SetCompiled(X, Lit(1));
    SetCompiled(X, Lit(2));
    SetCompiled(Y, Holding(X));
    assert SET1 == Set(X, Lit(1)) && SET2 == Set(X, Lit(2)) && READ == Set(Y, Holding(X));
  }

  lemma ThreeComposed(a: Action, b: Action, c: Action) returns (m: Sym)
    requires Core(a) && Core(b) && Core(c) && Sets(a, X) && Sets(b, X) && Sets(c, Y)
    ensures var u1 := Compose(NullUpdate(), IntUpdate(a));
            var u2 := Compose(u1, IntUpdate(b));
            var n1 := ComposeNotes(NullUpdate(), NO_NOTES, IntUpdate(a), NotesOf(a));
            var n2 := ComposeNotes(u1, n1, IntUpdate(b), NotesOf(b));
            ComposeNotes(u2, n2, IntUpdate(c), NotesOf(c)).tr == StepsNote(m)
    ensures m.kind.Skolem?
  {
    hide Core, IntUpdate, NotesOf, Sets, Compose, ComposeNotes;
    var u1 := Compose(NullUpdate(), IntUpdate(a));
    var n1 := ComposeNotes(NullUpdate(), NO_NOTES, IntUpdate(a), NotesOf(a));
    FirstSet(a);
    m := SecondSet(u1, n1, b);
    ThirdSet(Compose(u1, IntUpdate(b)), ComposeNotes(u1, n1, IntUpdate(b), NotesOf(b)), c);
  }

  lemma FirstSet(a: Action)
    requires Core(a) && Sets(a, X)
    ensures Compose(NullUpdate(), IntUpdate(a)).mod == [X]
    ensures ComposeNotes(NullUpdate(), NO_NOTES, IntUpdate(a), NotesOf(a)).tr == W.Compose(W.Empty, W.Empty)
  {
    hide Core, IntUpdate, NotesOf, Used, MidMap, Compose, ComposeNotes, UpdatedJoin, MidNew, MidBase;
    OneId(X, Y);
    SetNote(NullUpdate(), NO_NOTES, a);
    NoMids(MidMap(NullUpdate(), IntUpdate(a)));
  }

  lemma SecondSet(u1: Update, n1: Notes, b: Action) returns (m: Sym)
    requires Core(b) && Sets(b, X) && u1.mod == [X] && n1.tr == W.Compose(W.Empty, W.Empty)
    ensures Compose(u1, IntUpdate(b)).mod == [X] && m.kind.Skolem?
    ensures ComposeNotes(u1, n1, IntUpdate(b), NotesOf(b)).tr == StepsNote(m).left
  {
    hide Core, IntUpdate, NotesOf, Used, MidMap, Compose, ComposeNotes, UpdatedJoin, MidNew, MidBase;
    OneId(X, Y);
    SetNote(u1, n1, b);
    MidKeys(u1, IntUpdate(b));
    assert BASE_X.id in [X];
    m := MidsOfX(MidMap(u1, IntUpdate(b)));
    RenamedOne(W.Compose(W.Empty, W.Empty), NEW_X, m);
    RenamedOne(W.Empty, BASE_X, m);
  }

  lemma RenamedOne(n: W.Annot, x: Sym, y: Sym)
    ensures Renamed(n, map[x := y]) == W.Rename(n, map[x := y])
  {
    assert x in map[x := y];
  }

  lemma ThirdSet(u2: Update, n2: Notes, c: Action)
    requires Core(c) && Sets(c, Y) && u2.mod == [X]
    ensures ComposeNotes(u2, n2, IntUpdate(c), NotesOf(c)).tr ==
            W.Compose(n2.tr, W.Rename(W.Empty, map[BASE_X := NEW_X]))
  {
    hide Core, IntUpdate, NotesOf, Used, MidMap, Compose, ComposeNotes, UpdatedJoin, MidNew, MidBase;
    SetNote(u2, n2, c);
    MidKeys(u2, IntUpdate(c));
    assert X != Y by { assert X.name == "x" && Y.name == "y"; }
    assert BASE_X !in MidMap(u2, IntUpdate(c));
    NoMidsOfX(MidMap(u2, IntUpdate(c)));
    RenamedOne(W.Empty, BASE_X, NEW_X);
  }

  lemma MidKeys(u1: Update, u2: Update)
    ensures forall x :: x in MidMap(u1, u2) <==> x.kind.Base? && x.id in u1.mod && x.id in u2.mod
    ensures forall x :: x in MidMap(u1, u2) ==> MidMap(u1, u2)[x].kind.Skolem?
  {
    hide UsedNames;
  }

  lemma MidsOfX(mm: Renaming) returns (m: Sym)
    requires BASE_X in mm && mm[BASE_X].kind.Skolem?
    ensures m.kind.Skolem? && MidNew([X], mm) == map[NEW_X := m] && MidBase([X], mm) == map[BASE_X := m]
  {
    m := mm[BASE_X];
  }

  lemma NoMidsOfX(mm: Renaming)
    requires BASE_X !in mm
    ensures MidNew([X], mm) == map[] && MidBase([X], mm) == map[BASE_X := NEW_X]
  {
  }

  // ----- and what is handed over -----

  lemma StepsOrdered(m: Sym, eval: Sym -> bool)
    requires m.kind.Skolem?
    ensures W.Tidy(StepsNote(m), map[], eval) && W.Ordered(StepsNote(m), map[], eval)
  {
    hide W.Ask, W.Idempotent;
    IdempotentAway(map[NEW_X := m]);
    IdempotentAway(map[BASE_X := m]);
    IdempotentAway(map[BASE_X := NEW_X]);
    var first, second := W.Rename(W.Compose(W.Empty, W.Empty), map[NEW_X := m]), W.Rename(W.Empty, map[BASE_X := m]);
    assert NoFlagAsked(first) && W.Orderly(first) && NoFlagAsked(second) && W.Orderly(second);
    assert NoFlagAsked(W.Compose(first, second)) && W.Orderly(W.Compose(first, second));
    assert W.Orderly(W.Rename(W.Empty, map[BASE_X := NEW_X]));
    NothingAsked(StepsNote(m), map[], eval);
    W.OrderlyOrdered(StepsNote(m), map[], eval);
  }

  lemma ShapeSteps()
    ensures Shape(STEPS) == W.Seq([W.Leaf(SET1), W.Leaf(SET2), W.Leaf(READ)])
  {
    var es := [SET1, SET2, READ];
    assert es[..2] == [SET1, SET2] && es[..2][..1] == [SET1] && [SET1][..0] == [];
    assert Shapes([SET1, SET2]) == [W.Leaf(SET1), W.Leaf(SET2)] by {
      assert [SET1, SET2][..1] == [SET1] && Shapes([SET1]) == [W.Leaf(SET1)];
    }
  }

  lemma LeafRenamed(a: Action, m: Renaming, scope: Renaming, eval: Sym -> bool, mod: W.Callees)
    ensures W.Denote(W.Leaf(a), W.Rename(W.Empty, m), scope, -1, false, eval, mod) ==
            Some([W.Told(W.Handle(W.Leaf(a)), W.Entered(scope, m))])
    ensures W.Denote(W.Leaf(a), W.Empty, scope, -1, false, eval, mod) == Some([W.Told(W.Handle(W.Leaf(a)), scope)])
  {
  }

  /** In lexical scope, x is called new_x when y := x comes. */
  lemma StepsDenoted(m: Sym, eval: Sym -> bool, mod: W.Callees)
    ensures var d := W.Denote(Shape(STEPS), StepsNote(m), map[], -1, false, eval, mod);
            && d.Some? && |d.value| == 3
            && d.value[2] == W.Told(W.Handle(W.Leaf(READ)), W.Entered(map[], map[BASE_X := NEW_X]))
  {
    hide W.Denote, W.Entered;
    ShapeSteps();
    var a, n := Shape(STEPS), StepsNote(m);
    var inside := W.Entered(map[], map[NEW_X := m]);
    W.DenoteStep(a, n, map[], -1, false, eval, mod);
    W.DenoteStep(a, n.left, map[], 2, false, eval, mod);
    DenoteRename(a, n.left.left.arg, map[NEW_X := m], map[], 1, false, eval, mod);
    W.DenoteStep(a, n.left.left.arg, inside, 1, false, eval, mod);
    NothingDenoted(a.elems, inside, eval, mod);
    LeafRenamed(SET1, map[], inside, eval, mod);
    LeafRenamed(SET2, map[BASE_X := m], map[], eval, mod);
    LeafRenamed(READ, map[BASE_X := NEW_X], map[], eval, mod);
  }

  /** But new_x is left behind as the value in the middle. */
  lemma StepsStale(m: Sym, eval: Sym -> bool, mod: W.Callees)
    requires m.kind.Skolem?
    ensures var stale := W.Stale(Shape(STEPS), StepsNote(m), map[], {}, -1, eval, mod);
            |stale| == 3 ==> BASE_X in stale[2]
  {
    hide W.Stale, W.Left, W.Entered;
    ShapeSteps();
    var a, n := Shape(STEPS), StepsNote(m);
    W.StaleStep(a, n, map[], {}, -1, eval, mod);
    var left := W.Left(a, n.left, map[], 2, eval, mod);
    W.LeftStep(a, n.left, map[], 2, eval, mod);
    FirstLeft(a, n.left.left.arg, m, eval, mod);
    LeftKeeps(W.Left(a, n.left.left, map[], 1, eval, mod), W.Left(a.elems[1], n.left.right,
              map[] + W.Left(a, n.left.left, map[], 1, eval, mod), -1, eval, mod));
    assert left[NEW_X] == m && NEW_X in W.LeftNames(left);
    ReadStale(map[] + left, {} + W.LeftNames(left), eval, mod);
  }

  lemma LeftKeeps(l: Renaming, q: Renaming)
    requires NEW_X in l && NEW_X !in q
    ensures (l + q)[NEW_X] == l[NEW_X]
  {
  }

  lemma FirstLeft(a: W.Action, n: W.Annot, m: Sym, eval: Sym -> bool, mod: W.Callees)
    requires a.Seq?
    ensures var l := W.Left(a, W.Rename(n, map[NEW_X := m]), map[], 1, eval, mod);
            NEW_X in l && l[NEW_X] == m
  {
    var env := W.Entered(map[], map[NEW_X := m]);
    var inner := W.Left(a, n, env, 1, eval, mod);
    assert NEW_X in env && NEW_X !in inner;
  }

  lemma ReadStale(env: Renaming, names: set<Sym>, eval: Sym -> bool, mod: W.Callees)
    requires NEW_X in names
    ensures var s := W.Stale(W.Leaf(READ), W.Rename(W.Empty, map[BASE_X := NEW_X]), env, names, -1, eval, mod);
            |s| == 1 && BASE_X in s[0]
  {
  }

  /** x := 1; x := 2; y := x: every walk hands over y := x with an environment in which x is not called new_x, the name
      that it has in the scope of that assignment. */
  lemma BindingLeftBehind(eval: Sym -> bool, mod: W.Callees, r: W.Walked)
    requires Core(STEPS) && W.Walks(Shape(STEPS), NotesOf(STEPS).tr, map[], -1, eval, mod, r)
    ensures var d := W.Denote(Shape(STEPS), NotesOf(STEPS).tr, map[], -1, false, eval, mod);
            && d.Some? && |d.value| == |r.log| == 3
            && r.log[2].event == d.value[2].event == W.Handle(W.Leaf(READ))
            && Lookup(d.value[2].env, BASE_X) == NEW_X && Lookup(r.log[2].env, BASE_X) != NEW_X
  {
    hide Core, NotesOf, W.Walks, W.Denote, W.Stale, W.Tidy, W.Ordered, W.Settled, W.Asked, W.Bound, W.Entered;
    var m := StepsNotes();
    var n := StepsNote(m);
    StepsOrdered(m, eval);
    StepsDenoted(m, eval, mod);
    StepsStale(m, eval, mod);
    W.OrderedSettled(n, map[], eval);
    W.WalkFaithful(Shape(STEPS), n, map[], map[], -1, false, eval, mod, r);
    var es := W.Denote(Shape(STEPS), n, map[], -1, false, eval, mod).value;
    assert |W.Events(r.log)| == |W.Events(es)| && W.Events(r.log)[2] == W.Events(es)[2];
    W.EnvironmentHanded(Shape(STEPS), n, false, eval, mod, r, 2, BASE_X);
    W.EnteredGet(map[], map[BASE_X := NEW_X], BASE_X);
  }
}
