/**
 What an action may change: the symbols it assigns to or havocs, outside of the scopes that hide them.  These are
 the symbols that its update modifies.
 */
module Writes {
  import opened Options
  import opened Names
  import opened Logic
  import opened ClauseOps
  import opened Updates
  import opened Hiding
  import opened Substitution
  import opened Actions
  import opened Sizes
  import opened Somes
  import opened Atoms
  import opened Compiler
  import opened Loops
  import opened Programs
  import Calls

  predicate MayChange(a: Action, i: Id)
    decreases Size(a), 0
  {
    match a
    case Assign(target, _) => i == target.x
    case Havoc(target) => i == target.x
    case Sequence(es) => AnyChanges(es, i)
    case Choice(bs) => AnyChanges(bs, i)
    case If(_, thn, els) => MayChange(thn, i) || MayChange(els, i)
    case Local(xs, body) => i !in xs && MayChange(body, i)
    case BindOldsAction(inner) => MayChange(inner, i)
    case While(_, _, _, body) => MayChange(body, i)
    case IfSome(some, thn, els) => (i !in some.params && MayChange(thn, i)) || MayChange(els, i)
    case Call(_, _, _, _, _) => InlineCall(a) != a && (SizeInlined(a); MayChange(InlineCall(a), i))
    case _ => false
  }

  predicate AnyChanges(es: seq<Action>, i: Id)
    decreases SizeAll(es), 1
  {
    es != [] && (AnyChanges(es[..|es| - 1], i) || MayChange(es[|es| - 1], i))
  }

  // ----- what an update modifies -----

  lemma {:induction false} AddNewHas(a: seq<Id>, b: seq<Id>)
    ensures forall i :: i in AddNew(a, b) <==> i in a || i in b
  {
    if b != [] {
      AddNewHas(a, b[..|b| - 1]);
      assert b == b[..|b| - 1] + [b[|b| - 1]];
    }
  }

  lemma JoinHas(a: seq<Id>, b: seq<Id>)
    ensures forall i :: i in UpdatedJoin(a, b) <==> i in a || i in b
  {
    AddNewHas([], a);
    AddNewHas(AddNew([], a), b);
  }

  /** The update of an action modifies exactly what the action may change. */
  lemma {:induction false} ModifiedIs(a: Action, i: Id)
    requires Core(a)
    ensures i in IntUpdate(a).mod <==> MayChange(a, i)
    decreases Size(a), 1
  {
    hide SomeOk, InlineCall, StateExpr, Closed;
    match a
    case Sequence(es) => ComposedIs(es, i);
    case Choice(bs) => JoinedIs(bs, i);
    case If(_, thn, els) =>
      ModifiedIs(thn, i); ModifiedIs(els, i);
      JoinHas(IntUpdate(thn).mod, IntUpdate(els).mod);
    case Local(_, body) => ModifiedIs(body, i);
    case BindOldsAction(inner) => ModifiedIs(inner, i);
    case IfSome(some, thn, els) => SomeModifiedIs(some, thn, els, i);
    case _ => AtomModified(a, i);
  }

  lemma AtomModified(a: Action, i: Id)
    requires Core(a) && (a.Assume? || a.Assert? || a.Assign? || a.Havoc?)
    ensures i in IntUpdate(a).mod <==> MayChange(a, i)
  {
    hide Core, InlineCall;
  }

  lemma {:induction false} SomeModifiedIs(some: SomeCond, thn: Action, els: Action, i: Id)
    requires Core(IfSome(some, thn, els))
    ensures i in IntUpdate(IfSome(some, thn, els)).mod <==> MayChange(IfSome(some, thn, els), i)
    decreases Size(IfSome(some, thn, els)), 0
  {
    CoreIfPart(some, thn, els);
    hide Core, CoreAtom, SomeOk, SomeFormula, NoneFormula, Size, MayChange, IntUpdate, IfPart, ElsePart;
    var p, q := IfPart(some, thn), ElsePart(some, els);
    ModifiedIs(p, i);
    ModifiedIs(q, i);
    SomeUpdateIs(some, thn, els);
    JoinHas(IntUpdate(p).mod, IntUpdate(q).mod);
    SomeChanges(some, thn, els, i);
  }

  lemma SomeUpdateIs(some: SomeCond, thn: Action, els: Action)
    requires Core(IfSome(some, thn, els)) && Core(IfPart(some, thn)) && Core(ElsePart(some, els))
    ensures IntUpdate(IfSome(some, thn, els)).mod ==
            UpdatedJoin(IntUpdate(IfPart(some, thn)).mod, IntUpdate(ElsePart(some, els)).mod)
  {
    hide Core, IfPart, ElsePart, UpdatedJoin, Size;
  }

  lemma SomeChanges(some: SomeCond, thn: Action, els: Action, i: Id)
    ensures MayChange(IfSome(some, thn, els), i) <==>
            MayChange(IfPart(some, thn), i) || MayChange(ElsePart(some, els), i)
  {
    hide InlineCall, AnyChanges, SomeFormula, NoneFormula;
    PairChanges(Assume(SomeFormula(some)), thn, i);
    PairChanges(Assume(NoneFormula(some)), els, i);
  }

  lemma PairChanges(a: Action, b: Action, i: Id)
    requires a.Assume?
    ensures MayChange(Sequence([a, b]), i) <==> MayChange(b, i)
  {
    hide InlineCall;
    var one, two := [a], [a, b];
    assert two[..1] == one && one[..0] == [];
    assert !MayChange(a, i) && !AnyChanges(one, i);
    assert AnyChanges(two, i) <==> AnyChanges(two[..1], i) || MayChange(b, i);
  }

  lemma {:induction false} ComposedIs(es: seq<Action>, i: Id)
    requires forall e :: e in es ==> Core(e)
    ensures i in ComposeAll(es).mod <==> AnyChanges(es, i)
    decreases SizeAll(es), 2
  {
    hide Core, MayChange, IntUpdate;
    if es != [] {
      var n := |es| - 1;
      ComposedIs(es[..n], i);
      ModifiedIs(es[n], i);
      JoinHas(ComposeAll(es[..n]).mod, IntUpdate(es[n]).mod);
    }
  }

  lemma {:induction false} JoinedIs(bs: seq<Action>, i: Id)
    requires forall b :: b in bs ==> Core(b)
    ensures i in JoinAll(bs).mod <==> AnyChanges(bs, i)
    decreases SizeAll(bs), 2
  {
    hide Core, MayChange, IntUpdate;
    if bs != [] {
      var n := |bs| - 1;
      JoinedIs(bs[..n], i);
      ModifiedIs(bs[n], i);
      JoinHas(JoinAll(bs[..n]).mod, IntUpdate(bs[n]).mod);
    }
  }

  // ----- lowering -----

  lemma {:induction false} AnyOf(es: seq<Action>, i: Id)
    ensures AnyChanges(es, i) <==> exists e :: e in es && MayChange(e, i)
  {
    hide MayChange;
    if es != [] {
      var n := |es| - 1;
      AnyOf(es[..n], i);
      assert es == es[..n] + [es[n]];
      assert AnyChanges(es, i) <==> AnyChanges(es[..n], i) || MayChange(es[n], i);
    }
  }

  /** The expansion of a loop may change what its body may change. */
  lemma ExpansionChanges(c: Expr, invs: seq<Expr>, rank: Option<Expr>, body: Action, i: Id)
    requires LoopOk(c, invs, rank, body)
    ensures Core(body)
    ensures MayChange(Expand(c, invs, rank, body), i) <==> MayChange(body, i)
  {
    LoopCore(c, invs, rank, body);
    ModifiedIs(body, i);
    hide LoopOk, Core, IntUpdate, MayChange, LoopParts;
    var modset := IntUpdate(body).mod;
    var parts := LoopParts(c, invs, rank, body, modset);
    PartsChange(c, invs, rank, body, modset, i);
    SequenceChanges(parts, i);
    if rank.Some? {
      RankNotChanged(c, invs, rank, body);
      LocalChanges(Sequence(parts), i);
    }
  }

  lemma RankNotChanged(c: Expr, invs: seq<Expr>, rank: Option<Expr>, body: Action)
    requires LoopOk(c, invs, rank, body) && rank.Some? && Core(body)
    ensures !MayChange(body, RANK_ID)
  {
    hide Core, IntUpdate, MayChange, Without, StateExpr, Closed;
    ModifiedIs(body, RANK_ID);
  }

  lemma LocalChanges(a: Action, i: Id)
    ensures MayChange(Local([RANK_ID], a), i) <==> i != RANK_ID && MayChange(a, i)
  {
    hide InlineCall;
  }

  lemma SequenceChanges(es: seq<Action>, i: Id)
    ensures MayChange(Sequence(es), i) <==> AnyChanges(es, i)
  {
    hide InlineCall, AnyChanges;
  }

  lemma Quiet(a: Action, i: Id)
    requires a.Assume? || a.Assert?
    ensures !MayChange(a, i)
  {
    hide InlineCall;
  }

  lemma QuietAll(es: seq<Action>, i: Id)
    requires forall e :: e in es ==> e.Assume? || e.Assert?
    ensures forall e :: e in es ==> !MayChange(e, i)
  {
    hide MayChange;
    forall e | e in es ensures !MayChange(e, i) { Quiet(e, i); }
  }

  lemma HavocsChange(xs: seq<Id>, i: Id)
    ensures (exists e :: e in Havocs(xs) && MayChange(e, i)) <==> i in xs
  {
    hide InlineCall;
    var hs := Havocs(xs);
    forall k | 0 <= k < |hs| ensures MayChange(hs[k], i) <==> i == xs[k] { }
    if i in xs {
      var k :| 0 <= k < |xs| && xs[k] == i;
      assert hs[k] in hs && MayChange(hs[k], i);
    }
    if e :| e in hs && MayChange(e, i) {
      var k :| 0 <= k < |hs| && hs[k] == e;
    }
  }

  lemma PrefixChanges(invs: seq<Expr>, rank: Option<Expr>, modset: seq<Id>, i: Id)
    ensures (exists e :: e in Prefix(invs, rank, modset) && MayChange(e, i)) <==> i in modset
  {
    hide MayChange;
    var p, q, r := Asserts(invs), Havocs(modset), Assumes(invs + RankAssumes(rank));
    QuietAll(p, i);
    QuietAll(r, i);
    HavocsChange(modset, i);
    assert forall e :: e in Prefix(invs, rank, modset) <==> e in p || e in q || e in r;
  }

  lemma RoundChanges(invs: seq<Expr>, rank: Option<Expr>, body: Action, i: Id)
    ensures (exists e :: e in LoopBody(invs, rank, body) && MayChange(e, i)) <==> MayChange(body, i)
  {
    hide MayChange;
    var p, q := Asserts(EntryAsserts(rank)), Asserts(ExitAsserts(rank)) + Asserts(invs) + [Assume(Lit(0))];
    QuietAll(p, i);
    QuietAll(q, i);
    assert LoopBody(invs, rank, body) == p + [body] + q;
    assert body in p + [body] + q;
  }

  lemma TestChanges(c: Expr, es: seq<Action>, i: Id)
    ensures MayChange(If(c, Sequence(es), Sequence([])), i) <==> AnyChanges(es, i)
  {
    hide InlineCall;
  }

  lemma PartsChange(c: Expr, invs: seq<Expr>, rank: Option<Expr>, body: Action, modset: seq<Id>, i: Id)
    ensures AnyChanges(LoopParts(c, invs, rank, body, modset), i) <==> i in modset || MayChange(body, i)
  {
    hide MayChange, AnyChanges, Prefix, LoopBody;
    var test := If(c, Sequence(LoopBody(invs, rank, body)), Sequence([]));
    PrefixChanges(invs, rank, modset, i);
    RoundChanges(invs, rank, body, i);
    AnyOf(LoopBody(invs, rank, body), i);
    TestChanges(c, LoopBody(invs, rank, body), i);
    AnyOf(LoopParts(c, invs, rank, body, modset), i);
    assert test in LoopParts(c, invs, rank, body, modset);
  }

  lemma LoopChanges(a: Action, i: Id)
    requires a.While? && Lowerable(a) && (MayChange(Lower(a.body), i) <==> MayChange(a.body, i))
    ensures MayChange(Lower(a), i) <==> MayChange(a, i)
  {
    ExpansionChanges(a.cond, a.invariants, a.rank, Lower(a.body), i);
    hide LoopOk, Core, Expand, InlineCall;
  }

  lemma CallChanges(a: Action, i: Id)
    requires a.Call? && Lowerable(a) && (MayChange(Lower(InlineCall(a)), i) <==> MayChange(InlineCall(a), i))
    ensures MayChange(Lower(a), i) <==> MayChange(a, i)
  {
    hide Calls.Callable, InlineCall;
  }

  /** Lowering changes nothing about what may be changed. */
  lemma {:induction false} LoweredChanges(a: Action, i: Id)
    requires Lowerable(a)
    ensures MayChange(Lower(a), i) <==> MayChange(a, i)
    decreases Size(a), 0
  {
    hide LoopOk, SomeOk, Calls.Callable, InlineCall, Core, Expand;
    match a
    case Sequence(es) => AllLoweredChange(es, i);
    case Choice(bs) => AllLoweredChange(bs, i);
    case If(_, thn, els) => LoweredChanges(thn, i); LoweredChanges(els, i);
    case Local(_, body) => LoweredChanges(body, i);
    case BindOldsAction(inner) => LoweredChanges(inner, i);
    case While(_, _, _, body) => LoweredChanges(body, i); LoopChanges(a, i);
    case IfSome(_, thn, els) => LoweredChanges(thn, i); LoweredChanges(els, i);
    case Call(_, _, _, _, _) => SizeInlined(a); LoweredChanges(InlineCall(a), i); CallChanges(a, i);
    case _ =>
  }

  lemma {:induction false} AllLoweredChange(es: seq<Action>, i: Id)
    requires LowerableAll(es)
    ensures AnyChanges(LowerAll(es), i) <==> AnyChanges(es, i)
    decreases SizeAll(es), 1
  {
    hide Lowerable, Lower, MayChange;
    if es != [] {
      var n := |es| - 1;
      AllLoweredChange(es[..n], i);
      LoweredChanges(es[n], i);
    }
  }

  /** The update of a program modifies exactly what the program may change. */
  lemma CompiledModifies(a: Action, i: Id)
    requires Lowerable(a)
    ensures i in Compiled(a).mod <==> MayChange(a, i)
  {
    hide Lowerable, Lower, MayChange, IntUpdate;
    LowerCore(a);
    ModifiedIs(Lower(a), i);
    LoweredChanges(a, i);
  }
}
