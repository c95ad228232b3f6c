/**
 The computation of an action's update, and the theorem that the update means what running the action
 means: its transitions are exactly the runs, its failing states exactly those with an aborting run.
 */
module Compiler {
  import opened Names
  import opened Logic
  import opened ClauseOps
  import opened Updates
  import opened Hiding
  import opened Substitution
  import opened Actions
  import opened Sizes
  import opened Atoms
  import opened Somes

  // ----- updates -----

  /** Actions without loops and calls whose parts meet what compilation relies on: atomic actions as above, a closed
      condition, and for "if some" what its two parts rely on. */
  predicate Core(a: Action)
  {
    match a
    case Sequence(es) => forall e :: e in es ==> Core(e)
    case Choice(bs) => forall b :: b in bs ==> Core(b)
    case If(c, thn, els) => StateExpr(c) && Closed(c) && Core(thn) && Core(els)
    case Local(_, body) => Core(body)
    case BindOldsAction(inner) => Core(inner)
    case IfSome(some, thn, els) =>
      && SomeOk(some) && CoreAtom(Assume(SomeFormula(some))) && CoreAtom(Assume(NoneFormula(some)))
      && Core(thn) && Core(els)
    case _ => CoreAtom(a)
  }

  /** The parts of "if some" are smaller than it, and compiled if it is. */
  lemma CoreIfPart(some: SomeCond, thn: Action, els: Action)
    requires Core(IfSome(some, thn, els))
    ensures Core(IfPart(some, thn)) && Size(IfPart(some, thn)) < Size(IfSome(some, thn, els))
    ensures Core(ElsePart(some, els)) && Size(ElsePart(some, els)) < Size(IfSome(some, thn, els))
  {
    hide CoreAtom, SomeOk, SomeFormula, NoneFormula, Size;
    PairCore(Assume(SomeFormula(some)), thn);
    PairCore(Assume(NoneFormula(some)), els);
    PartSizes(some, thn, els);
  }

  lemma PartSizes(some: SomeCond, thn: Action, els: Action)
    ensures Size(IfPart(some, thn)) < Size(IfSome(some, thn, els))
    ensures Size(ElsePart(some, els)) < Size(IfSome(some, thn, els))
  {
    hide SomeFormula, NoneFormula, SizeAll;
    SizePair(Assume(SomeFormula(some)), thn);
    SizePair(Assume(NoneFormula(some)), els);
  }

  lemma PairCore(a: Action, b: Action)
    requires Core(a) && Core(b)
    ensures Core(Sequence([a, b]))
  {
    hide CoreAtom;
  }

  function IntUpdate(a: Action): Update
    requires Core(a)
    decreases Size(a), 0
  {
    match a
    case Assume(f) => AssumeUpdate(f)
    case Assert(f) => AssertUpdate(f)
    case Assign(target, rhs) => AssignUpdate(target, rhs)
    case Havoc(target) => HavocUpdate(target)
    case Sequence(es) => ComposeAll(es)
    case Choice(bs) => JoinAll(bs)
    case If(c, thn, els) => IteAction(c, IntUpdate(thn), IntUpdate(els))
    case Local(xs, body) => Hide(xs, IntUpdate(body))
    case BindOldsAction(inner) => BindOlds(IntUpdate(inner))
    case IfSome(some, thn, els) =>
      CoreIfPart(some, thn, els);
      Join(IntUpdate(IfPart(some, thn)), IntUpdate(ElsePart(some, els)))
  }

  function ComposeAll(es: seq<Action>): Update
    requires forall e :: e in es ==> Core(e)
    decreases SizeAll(es), 1
  {
    if es == [] then NullUpdate() else
    Compose(ComposeAll(es[..|es| - 1]), IntUpdate(es[|es| - 1]))
  }

  function JoinAll(bs: seq<Action>): Update
    requires forall b :: b in bs ==> Core(b)
    decreases SizeAll(bs), 1
  {
    if bs == [] then Update([], BOT, BOT) else
    Join(JoinAll(bs[..|bs| - 1]), IntUpdate(bs[|bs| - 1]))
  }

  // ----- structured actions -----

  lemma CondClosed(c: Expr)
    requires StateExpr(c) && Closed(c)
    ensures StateCond(c)
  {
    forall v: Val, env: Env
      ensures Eval(c, v, env) == Eval(c, v, map[])
    {
      ClosedEval(c, v, env);
    }
  }

  ghost predicate CorrectSeq(es: seq<Action>, u: Update)
  {
    && WellFormed(u)
    && (forall o: State, s: State, t: State :: Rel(u, o, s, t) <==> ExecSeq(es, o, s, t))
    && (forall o: State, s: State :: Fails(u, o, s) <==> AbortsSeq(es, o, s))
  }

  ghost predicate CorrectAny(bs: seq<Action>, u: Update)
  {
    && WellFormed(u)
    && (forall o: State, s: State, t: State :: Rel(u, o, s, t) <==> exists b :: b in bs && Exec(b, o, s, t))
    && (forall o: State, s: State :: Fails(u, o, s) <==> exists b :: b in bs && Aborts(b, o, s))
  }

  lemma EmptySequence()
    ensures CorrectSeq([], NullUpdate())
  {
    forall o: State, s: State, t: State
      ensures Rel(NullUpdate(), o, s, t) <==> ExecSeq([], o, s, t)
    {
      NullMeaning(o, s, t);
    }
    forall o: State, s: State
      ensures !Fails(NullUpdate(), o, s)
    {
      NullMeaning(o, s, s);
    }
  }

  lemma ExtendSequence(es: seq<Action>, u1: Update, u2: Update)
    requires es != [] && CorrectSeq(es[..|es| - 1], u1) && Correct(es[|es| - 1], u2)
    ensures CorrectSeq(es, Compose(u1, u2))
  {
    hide Rel, Fails, Compose, WellFormed, Exec, Aborts;
    ComposeWellFormed(u1, u2);
    forall o: State, s: State, t: State
      ensures Rel(Compose(u1, u2), o, s, t) <==> ExecSeq(es, o, s, t)
    {
      ComposeRel(u1, u2, o, s, t);
    }
    forall o: State, s: State
      ensures Fails(Compose(u1, u2), o, s) <==> AbortsSeq(es, o, s)
    {
      ComposeFails(u1, u2, o, s);
    }
  }

  lemma EmptyChoice()
    ensures CorrectAny([], Update([], BOT, BOT))
  {
  }

  lemma ExtendChoice(bs: seq<Action>, u1: Update, u2: Update)
    requires bs != [] && CorrectAny(bs[..|bs| - 1], u1) && Correct(bs[|bs| - 1], u2)
    ensures CorrectAny(bs, Join(u1, u2))
  {
    hide Rel, Fails, Join, WellFormed, Exec, Aborts;
    assert bs == bs[..|bs| - 1] + [bs[|bs| - 1]];
    var init, last := bs[..|bs| - 1], bs[|bs| - 1];
    assert forall b :: b in bs <==> b in init || b == last;
    JoinWellFormed(u1, u2);
    forall o: State, s: State, t: State
      ensures Rel(Join(u1, u2), o, s, t) <==> exists b :: b in bs && Exec(b, o, s, t)
    {
      JoinMeaning(u1, u2, o, s, t);
      assert Rel(u1, o, s, t) <==> exists b :: b in init && Exec(b, o, s, t);
    }
    forall o: State, s: State
      ensures Fails(Join(u1, u2), o, s) <==> exists b :: b in bs && Aborts(b, o, s)
    {
      JoinMeaning(u1, u2, o, s, s);
      assert Fails(u1, o, s) <==> exists b :: b in init && Aborts(b, o, s);
    }
  }

  lemma IfCorrect(a: Action, u1: Update, u2: Update)
    requires a.If? && StateExpr(a.cond) && Closed(a.cond) && Correct(a.thn, u1) && Correct(a.els, u2)
    ensures Correct(a, IteAction(a.cond, u1, u2))
  {
    hide Rel, Fails, IteAction, WellFormed, CondHolds, StateCond;
    CondClosed(a.cond);
    var u := IteAction(a.cond, u1, u2);
    IteWellFormed(a.cond, u1, u2);
    forall o: State, s: State, t: State
      ensures Rel(u, o, s, t) <==> Exec(a, o, s, t)
    {
      IteActionMeaning(a.cond, u1, u2, o, s, t);
    }
    forall o: State, s: State
      ensures Fails(u, o, s) <==> Aborts(a, o, s)
    {
      IteActionMeaning(a.cond, u1, u2, o, s, s);
    }
  }

  lemma LocalCorrect(a: Action, u: Update)
    requires a.Local? && Correct(a.body, u)
    ensures Correct(a, Hide(a.xs, u))
  {
    hide Rel, Fails, Hide, WellFormed;
    HideWellFormed(a.xs, u);
    forall o: State, s: State, t: State
      ensures Rel(Hide(a.xs, u), o, s, t) <==> Exec(a, o, s, t)
    {
      HideRel(a.xs, u, o, s, t);
    }
    forall o: State, s: State
      ensures Fails(Hide(a.xs, u), o, s) <==> Aborts(a, o, s)
    {
      HideFails(a.xs, u, o, s);
    }
  }

  lemma BindCorrect(a: Action, u: Update)
    requires a.BindOldsAction? && Correct(a.inner, u)
    ensures Correct(a, BindOlds(u))
  {
    hide Rel, Fails, BindOlds, WellFormed;
    BindOldsWellFormed(u);
    forall o: State, s: State, t: State
      ensures Rel(BindOlds(u), o, s, t) <==> Exec(a, o, s, t)
    {
      BindOldsMeaning(u, o, s, t);
    }
    forall o: State, s: State
      ensures Fails(BindOlds(u), o, s) <==> Aborts(a, o, s)
    {
      BindOldsMeaning(u, o, s, s);
    }
  }

  /** Compiler correctness: the computed update has exactly the runs of the action as transitions, and
      fails exactly where some run reaches a false assertion. */
  lemma {:induction false} CompilerCorrect(a: Action)
    requires Core(a)
    ensures Correct(a, IntUpdate(a))
    decreases Size(a), 2
  {
    assert Core(a) && (a.While? || a.Call?) ==> !CoreAtom(a);
    hide Correct, CoreAtom, SomeOk, ComposeAll, JoinAll;
    match a
    case Assume(f) => AssumeCorrect(f);
    case Assert(f) => AssertCorrect(f);
    case Assign(target, rhs) => AssignCorrect(target, rhs);
    case Havoc(target) => HavocCorrect(target);
    case Sequence(es) => ComposeAllCorrect(es); SequenceCorrect(a, ComposeAll(es));
    case Choice(bs) => JoinAllCorrect(bs); ChoiceCorrect(a);
    case If(c, thn, els) =>
      CompilerCorrect(thn); CompilerCorrect(els);
      IfCorrect(a, IntUpdate(thn), IntUpdate(els));
    case Local(_, body) => CompilerCorrect(body); LocalCorrect(a, IntUpdate(body));
    case BindOldsAction(inner) => CompilerCorrect(inner); BindCorrect(a, IntUpdate(inner));
    case IfSome(some, thn, els) =>
      CoreIfPart(some, thn, els);
      CompilerCorrect(IfPart(some, thn));
      CompilerCorrect(ElsePart(some, els));
      SomeCorrect(a, IntUpdate(IfPart(some, thn)), IntUpdate(ElsePart(some, els)));
  }

  lemma SequenceCorrect(a: Action, u: Update)
    requires a.Sequence? && CorrectSeq(a.elems, u)
    ensures Correct(a, u)
  {
    hide Rel, Fails, WellFormed;
  }

  lemma SomeCorrect(a: Action, u1: Update, u2: Update)
    requires a.IfSome? && SomeOk(a.some)
    requires Correct(IfPart(a.some, a.thn), u1) && Correct(ElsePart(a.some, a.els), u2)
    ensures Correct(a, Join(u1, u2))
  {
    hide Rel, Fails, Join, WellFormed, Exec, Aborts, SomeOk, IfPart, ElsePart;
    JoinWellFormed(u1, u2);
    forall o: State, s: State, t: State
      ensures Rel(Join(u1, u2), o, s, t) <==> Exec(a, o, s, t)
    {
      JoinMeaning(u1, u2, o, s, t);
      ChoiceIs(IfPart(a.some, a.thn), ElsePart(a.some, a.els), o, s, t);
      PartsCorrect(a.some, a.thn, a.els, o, s, t);
    }
    forall o: State, s: State
      ensures Fails(Join(u1, u2), o, s) <==> Aborts(a, o, s)
    {
      JoinMeaning(u1, u2, o, s, s);
      ChoiceIs(IfPart(a.some, a.thn), ElsePart(a.some, a.els), o, s, s);
      PartsCorrect(a.some, a.thn, a.els, o, s, s);
    }
  }

  lemma ChoiceCorrect(a: Action)
    requires a.Choice? && Core(a) && CorrectAny(a.branches, JoinAll(a.branches))
    ensures Correct(a, IntUpdate(a))
  {
    hide Rel, Fails, WellFormed, JoinAll;
    var bs := a.branches;
    forall o: State, s: State, t: State
      ensures Exec(a, o, s, t) <==> exists b :: b in bs && Exec(b, o, s, t)
    {
      if b :| b in bs && Exec(b, o, s, t) {
        var k :| 0 <= k < |bs| && bs[k] == b;
      }
    }
    forall o: State, s: State
      ensures Aborts(a, o, s) <==> exists b :: b in bs && Aborts(b, o, s)
    {
      if b :| b in bs && Aborts(b, o, s) {
        var k :| 0 <= k < |bs| && bs[k] == b;
      }
    }
  }

  lemma {:induction false} ComposeAllCorrect(es: seq<Action>)
    requires forall e :: e in es ==> Core(e)
    ensures CorrectSeq(es, ComposeAll(es))
    decreases SizeAll(es), 3
  {
    hide CorrectSeq, Correct, Core, IntUpdate;
    if es == [] {
      EmptySequence();
    } else {
      ComposeAllCorrect(es[..|es| - 1]);
      CompilerCorrect(es[|es| - 1]);
      ExtendSequence(es, ComposeAll(es[..|es| - 1]), IntUpdate(es[|es| - 1]));
    }
  }

  lemma {:induction false} JoinAllCorrect(bs: seq<Action>)
    requires forall b :: b in bs ==> Core(b)
    ensures CorrectAny(bs, JoinAll(bs))
    decreases SizeAll(bs), 3
  {
    hide CorrectAny, Correct, Core, IntUpdate;
    if bs == [] {
      EmptyChoice();
    } else {
      JoinAllCorrect(bs[..|bs| - 1]);
      CompilerCorrect(bs[|bs| - 1]);
      ExtendChoice(bs, JoinAll(bs[..|bs| - 1]), IntUpdate(bs[|bs| - 1]));
    }
  }
}
