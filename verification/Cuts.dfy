/**
 Programs with loops cut at their heads: what a loop does is told by its invariants, its rank and one round of
 its body.  The update of a lowered program has exactly the runs and failures of the program in this sense.
 */
module Cuts {
  import opened Options
  import opened Names
  import opened Logic
  import opened ClauseOps
  import opened Updates
  import opened Hiding
  import opened Substitution
  import opened Actions
  import opened Runs
  import opened Compiler
  import opened Loops
  import opened Sizes
  import opened Programs
  import opened Writes
  import Calls

  /** A state in which a round may start: it differs from that at entry only on what the body may change, and
      the invariants hold. */
  ghost predicate Start(invs: seq<Expr>, body: Action, o: State, s: State, m: State)
  {
    (forall i: Id :: !MayChange(body, i) ==> m(i) == s(i)) && AllTrue(invs, o, m)
  }

  lemma StartIsHead(invs: seq<Expr>, body: Action, o: State, s: State, m: State)
    requires Lowerable(body) && Core(Lower(body))
    ensures Start(invs, body, o, s, m) <==> Head(invs, Lower(body), o, s, m)
  {
    hide Lowerable, Lower, Core, IntUpdate, AllTrue, MayChange;
    forall i: Id
      ensures i in IntUpdate(Lower(body)).mod <==> MayChange(body, i)
    {
      ModifiedIs(Lower(body), i);
      LoweredChanges(body, i);
    }
  }

  /** A run in which every loop goes to some state at which rounds may start and the condition is false. */
  ghost predicate CutRun(a: Action, o: State, s: State, t: State)
    decreases Size(a), 0
  {
    match a
    case Sequence(es) => CutSeq(es, o, s, t)
    case Choice(bs) => exists k :: 0 <= k < |bs| && (SizeMember(bs, k); CutRun(bs[k], o, s, t))
    case If(c, thn, els) => if CondHolds(c, o, s) then CutRun(thn, o, s, t) else CutRun(els, o, s, t)
    case Local(xs, body) =>
      SameOn(xs, s, t) && exists s1: State, t1: State ::
        SameOff(xs, s1, s) && SameOff(xs, t1, t) && CutRun(body, o, s1, t1)
    case BindOldsAction(inner) => CutRun(inner, s, s, t)
    case While(c, invs, _, body) => Start(invs, body, o, s, t) && !CondHolds(c, o, t)
    case IfSome(some, thn, els) =>
      || (SameOn(some.params, s, t) && exists w: State, t1: State ::
            Picked(some, o, s, w) && SameOff(some.params, t1, t) && CutRun(thn, o, w, t1))
      || ((forall w: State :: !Witnesses(some, o, s, w)) && CutRun(els, o, s, t))
    case Call(_, _, _, _, _) => InlineCall(a) != a && (SizeInlined(a); CutRun(InlineCall(a), o, s, t))
    case _ => Exec(a, o, s, t)
  }

  ghost predicate CutSeq(es: seq<Action>, o: State, s: State, t: State)
    decreases SizeAll(es), 1
  {
    if es == [] then Same(s, t) else
    var n := |es| - 1;
    exists m: State :: CutSeq(es[..n], o, s, m) && CutRun(es[n], o, m, t)
  }

  /** Such a run comes to a false assertion.  A loop fails if an invariant is false at entry, or a round fails from
      some state where rounds may start and the condition is true: its rank is negative there, the body fails, or
      the body ends where an invariant is false or the rank is not lower. */
  ghost predicate CutFail(a: Action, o: State, s: State)
    decreases Size(a), 0
  {
    match a
    case Sequence(es) => CutFailSeq(es, o, s)
    case Choice(bs) => exists k :: 0 <= k < |bs| && (SizeMember(bs, k); CutFail(bs[k], o, s))
    case If(c, thn, els) => if CondHolds(c, o, s) then CutFail(thn, o, s) else CutFail(els, o, s)
    case Local(xs, body) => exists s1: State :: SameOff(xs, s1, s) && CutFail(body, o, s1)
    case BindOldsAction(inner) => CutFail(inner, s, s)
    case While(c, invs, rank, body) =>
      !AllTrue(invs, o, s) || exists m: State ::
        && Start(invs, body, o, s, m) && CondHolds(c, o, m)
        && (|| (rank.Some? && RankAt(rank, o, m) < 0)
            || CutFail(body, o, m)
            || exists t: State :: CutRun(body, o, m, t) && BadEnd(invs, rank, o, m, t))
    case IfSome(some, thn, els) =>
      || (exists w: State :: Picked(some, o, s, w) && CutFail(thn, o, w))
      || ((forall w: State :: !Witnesses(some, o, s, w)) && CutFail(els, o, s))
    case Call(_, _, _, _, _) => InlineCall(a) != a && (SizeInlined(a); CutFail(InlineCall(a), o, s))
    case _ => Aborts(a, o, s)
  }

  ghost predicate CutFailSeq(es: seq<Action>, o: State, s: State)
    decreases SizeAll(es), 1
  {
    if es == [] then false else
    var n := |es| - 1;
    || CutFailSeq(es[..n], o, s)
    || exists m: State :: CutSeq(es[..n], o, s, m) && CutFail(es[n], o, m)
  }

  // ----- the lowered action -----

  /** b has the cut runs and failures of a. */
  ghost predicate CutLike(a: Action, b: Action)
  {
    && (forall o: State, s: State, t: State :: Exec(b, o, s, t) <==> CutRun(a, o, s, t))
    && forall o: State, s: State :: Aborts(b, o, s) <==> CutFail(a, o, s)
  }

  lemma CutLikeAt(a: Action, b: Action, o: State, s: State, t: State)
    requires CutLike(a, b)
    ensures Exec(b, o, s, t) <==> CutRun(a, o, s, t)
    ensures Aborts(b, o, s) <==> CutFail(a, o, s)
  {
    hide CutRun, CutFail, Exec, Aborts;
  }

  lemma CutLikeIs(a: Action, b: Action)
    requires forall o: State, s: State, t: State :: Exec(b, o, s, t) <==> CutRun(a, o, s, t)
    requires forall o: State, s: State :: Aborts(b, o, s) <==> CutFail(a, o, s)
    ensures CutLike(a, b)
  {
    hide CutRun, CutFail, Exec, Aborts;
  }

  ghost predicate CutLikeAll(es: seq<Action>, fs: seq<Action>)
  {
    |es| == |fs| && forall k :: 0 <= k < |es| ==> CutLike(es[k], fs[k])
  }

  lemma {:induction false} SeqRun(es: seq<Action>, fs: seq<Action>, o: State, s: State, t: State)
    requires CutLikeAll(es, fs)
    ensures ExecSeq(fs, o, s, t) <==> CutSeq(es, o, s, t)
  {
    hide Exec, CutRun, CutLike;
    if es != [] {
      var n := |es| - 1;
      forall m: State
        ensures ExecSeq(fs[..n], o, s, m) <==> CutSeq(es[..n], o, s, m)
        ensures Exec(fs[n], o, m, t) <==> CutRun(es[n], o, m, t)
      {
        SeqRun(es[..n], fs[..n], o, s, m);
        CutLikeAt(es[n], fs[n], o, m, t);
      }
    }
  }

  lemma {:induction false} SeqFail(es: seq<Action>, fs: seq<Action>, o: State, s: State)
    requires CutLikeAll(es, fs)
    ensures AbortsSeq(fs, o, s) <==> CutFailSeq(es, o, s)
  {
    hide Exec, CutRun, Aborts, CutFail, CutLike, ExecSeq, CutSeq;
    if es != [] {
      var n := |es| - 1;
      SeqFail(es[..n], fs[..n], o, s);
      forall m: State
        ensures ExecSeq(fs[..n], o, s, m) <==> CutSeq(es[..n], o, s, m)
        ensures Aborts(fs[n], o, m) <==> CutFail(es[n], o, m)
      {
        SeqRun(es[..n], fs[..n], o, s, m);
        CutLikeAt(es[n], fs[n], o, m, m);
      }
    }
  }

  lemma CutSequence(es: seq<Action>, fs: seq<Action>)
    requires CutLikeAll(es, fs)
    ensures CutLike(Sequence(es), Sequence(fs))
  {
    hide CutLike, CutSeq, CutFailSeq, ExecSeq, AbortsSeq, InlineCall, Start;
    forall o: State, s: State, t: State
      ensures Exec(Sequence(fs), o, s, t) <==> CutRun(Sequence(es), o, s, t)
    {
      SeqRun(es, fs, o, s, t);
    }
    forall o: State, s: State
      ensures Aborts(Sequence(fs), o, s) <==> CutFail(Sequence(es), o, s)
    {
      SeqFail(es, fs, o, s);
    }
    CutLikeIs(Sequence(es), Sequence(fs));
  }

  lemma ChoiceRun(bs: seq<Action>, o: State, s: State, t: State)
    ensures CutRun(Choice(bs), o, s, t) <==> exists k :: 0 <= k < |bs| && CutRun(bs[k], o, s, t)
  {
    hide Exec, InlineCall, Start;
  }

  lemma ChoiceFail(bs: seq<Action>, o: State, s: State)
    ensures CutFail(Choice(bs), o, s) <==> exists k :: 0 <= k < |bs| && CutFail(bs[k], o, s)
  {
    hide Aborts, InlineCall, Start;
  }

  lemma CutChoice(es: seq<Action>, fs: seq<Action>)
    requires CutLikeAll(es, fs)
    ensures CutLike(Choice(es), Choice(fs))
  {
    hide CutLike, CutRun, CutFail;
    forall o: State, s: State, t: State
      ensures Exec(Choice(fs), o, s, t) <==> CutRun(Choice(es), o, s, t)
    {
      ChoiceRun(es, o, s, t);
      forall k | 0 <= k < |es|
        ensures Exec(fs[k], o, s, t) <==> CutRun(es[k], o, s, t)
      {
        CutLikeAt(es[k], fs[k], o, s, t);
      }
    }
    forall o: State, s: State
      ensures Aborts(Choice(fs), o, s) <==> CutFail(Choice(es), o, s)
    {
      ChoiceFail(es, o, s);
      forall k | 0 <= k < |es|
        ensures Aborts(fs[k], o, s) <==> CutFail(es[k], o, s)
      {
        CutLikeAt(es[k], fs[k], o, s, s);
      }
    }
    CutLikeIs(Choice(es), Choice(fs));
  }

  lemma IfCut(c: Expr, a: Action, b: Action, o: State, s: State, t: State)
    ensures CutRun(If(c, a, b), o, s, t) <==> if CondHolds(c, o, s) then CutRun(a, o, s, t) else CutRun(b, o, s, t)
    ensures CutFail(If(c, a, b), o, s) <==> if CondHolds(c, o, s) then CutFail(a, o, s) else CutFail(b, o, s)
  {
    hide CondHolds, InlineCall, Start;
  }

  lemma CutIf(c: Expr, a: Action, b: Action, a': Action, b': Action)
    requires CutLike(a, a') && CutLike(b, b')
    ensures CutLike(If(c, a, b), If(c, a', b'))
  {
    hide CutLike, Exec, Aborts, CutRun, CutFail;
    forall o: State, s: State, t: State
      ensures Exec(If(c, a', b'), o, s, t) <==> CutRun(If(c, a, b), o, s, t)
    {
      IfIs(c, a', b', o, s, t);
      IfCut(c, a, b, o, s, t);
      CutLikeAt(a, a', o, s, t);
      CutLikeAt(b, b', o, s, t);
    }
    forall o: State, s: State
      ensures Aborts(If(c, a', b'), o, s) <==> CutFail(If(c, a, b), o, s)
    {
      IfIs(c, a', b', o, s, s);
      IfCut(c, a, b, o, s, s);
      CutLikeAt(a, a', o, s, s);
      CutLikeAt(b, b', o, s, s);
    }
    CutLikeIs(If(c, a, b), If(c, a', b'));
  }

  lemma CutLocal(xs: seq<Id>, a: Action, a': Action)
    requires CutLike(a, a')
    ensures CutLike(Local(xs, a), Local(xs, a'))
  {
    hide SameOff, SameOn, InlineCall, Start;
    CutLikeIs(Local(xs, a), Local(xs, a'));
  }

  lemma CutBind(a: Action, a': Action)
    requires CutLike(a, a')
    ensures CutLike(BindOldsAction(a), BindOldsAction(a'))
  {
    hide InlineCall, Start;
    CutLikeIs(BindOldsAction(a), BindOldsAction(a'));
  }

  lemma CutSome(some: SomeCond, a: Action, b: Action, a': Action, b': Action)
    requires CutLike(a, a') && CutLike(b, b')
    ensures CutLike(IfSome(some, a, b), IfSome(some, a', b'))
  {
    hide SameOff, SameOn, Picked, Witnesses, InlineCall, Start;
    CutLikeIs(IfSome(some, a, b), IfSome(some, a', b'));
  }

  lemma CutAtom(a: Action)
    requires a.Assume? || a.Assert? || a.Assign? || a.Havoc?
    ensures CutLike(a, a)
  {
    hide Exec, Aborts, InlineCall, Start;
  }

  lemma WhileCutFail(c: Expr, invs: seq<Expr>, rank: Option<Expr>, body: Action, b: Action, o: State, s: State)
    requires Lowerable(body) && Core(b) && b == Lower(body) && CutLike(body, b)
    ensures CutFail(While(c, invs, rank, body), o, s) <==>
            !AllTrue(invs, o, s) || exists m: State :: BadHead(c, invs, rank, b, o, s, m)
  {
    hide Core, Lower, Lowerable, Head, Start, BadRound, AllTrue, CondHolds, BadEnd, Exec, Aborts, CutLike, InlineCall;
    forall m: State
      ensures BadHead(c, invs, rank, b, o, s, m) <==>
              && Start(invs, body, o, s, m) && CondHolds(c, o, m)
              && (|| (rank.Some? && RankAt(rank, o, m) < 0)
                  || CutFail(body, o, m)
                  || exists t: State :: CutRun(body, o, m, t) && BadEnd(invs, rank, o, m, t))
    {
      StartIsHead(invs, body, o, s, m);
      RoundCut(invs, rank, body, b, o, m);
    }
  }

  lemma RoundCut(invs: seq<Expr>, rank: Option<Expr>, body: Action, b: Action, o: State, m: State)
    requires CutLike(body, b)
    ensures BadRound(invs, rank, b, o, m) <==>
            || (rank.Some? && RankAt(rank, o, m) < 0)
            || CutFail(body, o, m)
            || exists t: State :: CutRun(body, o, m, t) && BadEnd(invs, rank, o, m, t)
  {
    hide Exec, Aborts, CutRun, CutFail, BadEnd;
  }

  lemma CutWhile(c: Expr, invs: seq<Expr>, rank: Option<Expr>, body: Action, b: Action)
    requires Lowerable(body) && LoopOk(c, invs, rank, b) && b == Lower(body) && CutLike(body, b)
    ensures Core(b)
    ensures CutLike(While(c, invs, rank, body), Expand(c, invs, rank, b))
  {
    LoopCore(c, invs, rank, b);
    hide LoopOk, Core, Lower, Lowerable, Exec, Aborts, CutLike, CutRun, CutFail, Expand, Head, BadHead, AllTrue,
      CondHolds, Start;
    var p, q := While(c, invs, rank, body), Expand(c, invs, rank, b);
    forall o: State, s: State, t: State
      ensures Exec(q, o, s, t) <==> CutRun(p, o, s, t)
    {
      ExpandRuns(c, invs, rank, b, o, s, t);
      WhileCutRun(c, invs, rank, body, b, o, s, t);
    }
    forall o: State, s: State
      ensures Aborts(q, o, s) <==> CutFail(p, o, s)
    {
      ExpandAborts(c, invs, rank, b, o, s);
      WhileCutFail(c, invs, rank, body, b, o, s);
    }
    CutLikeIs(p, q);
  }

  lemma WhileCutRun(c: Expr, invs: seq<Expr>, rank: Option<Expr>, body: Action, b: Action, o: State, s: State, t: State)
    requires Lowerable(body) && Core(b) && b == Lower(body)
    ensures CutRun(While(c, invs, rank, body), o, s, t) <==> Head(invs, b, o, s, t) && !CondHolds(c, o, t)
  {
    hide Core, Lower, Lowerable, Head, Start, CondHolds, InlineCall;
    StartIsHead(invs, body, o, s, t);
  }

  lemma CutCall(a: Action)
    requires a.Call? && InlineCall(a) != a && CutLike(InlineCall(a), Lower(InlineCall(a)))
    ensures CutLike(a, Lower(a))
  {
    SizeInlined(a);
    assert Lower(a) == Lower(InlineCall(a));
    hide Lower, Exec, Aborts, InlineCall;
    CutLikeIs(a, Lower(a));
  }

  /** Lowering gives exactly the cut runs and failures. */
  lemma {:induction false} LowerCut(a: Action)
    requires Lowerable(a)
    ensures CutLike(a, Lower(a))
    decreases Size(a), 0
  {
    hide CutLike, LoopOk, Calls.Callable, InlineCall;
    match a
    case Sequence(es) => LowerAllCut(es); CutSequence(es, LowerAll(es));
    case Choice(bs) => LowerAllCut(bs); CutChoice(bs, LowerAll(bs));
    case If(c, thn, els) => LowerCut(thn); LowerCut(els); CutIf(c, thn, els, Lower(thn), Lower(els));
    case Local(xs, body) => LowerCut(body); CutLocal(xs, body, Lower(body));
    case BindOldsAction(inner) => LowerCut(inner); CutBind(inner, Lower(inner));
    case While(c, invs, rank, body) => LowerCut(body); CutWhile(c, invs, rank, body, Lower(body));
    case IfSome(some, thn, els) => LowerCut(thn); LowerCut(els); CutSome(some, thn, els, Lower(thn), Lower(els));
    case Call(_, _, _, _, _) =>
      SizeInlined(a);
      LowerCut(InlineCall(a));
      CutCall(a);
    case _ => CutAtom(a);
  }

  lemma {:induction false} LowerAllCut(es: seq<Action>)
    requires LowerableAll(es)
    ensures CutLikeAll(es, LowerAll(es))
    decreases SizeAll(es), 1
  {
    hide CutLike, Lower, Lowerable;
    forall k | 0 <= k < |es|
      ensures CutLike(es[k], LowerAll(es)[k])
    {
      LowerableMember(es, k);
      LowerAllAt(es, k);
      LowerCut(es[k]);
    }
  }

  /** The update of a program, loops and calls included, has exactly its cut runs as transitions and fails exactly
      where a cut run comes to a false assertion. */
  lemma ProgramCut(a: Action, o: State, s: State, t: State)
    requires Lowerable(a)
    ensures Rel(Compiled(a), o, s, t) <==> CutRun(a, o, s, t)
    ensures Fails(Compiled(a), o, s) <==> CutFail(a, o, s)
  {
    hide Exec, Aborts, Rel, Fails, Lowerable, Lower, IntUpdate, CutRun, CutFail, CutLike;
    LowerCut(a);
    LowerCore(a);
    CompilerCorrect(Lower(a));
    CutLikeAt(a, Lower(a), o, s, t);
  }

  /** Without loops the cut runs and failures are the runs and failures. */
  lemma CutFree(a: Action, o: State, s: State, t: State)
    requires Lowerable(a) && LoopFree(a)
    ensures CutRun(a, o, s, t) <==> Exec(a, o, s, t)
    ensures CutFail(a, o, s) <==> Aborts(a, o, s)
  {
    hide Exec, Aborts, Lowerable, LoopFree, Lower, CutRun, CutFail, CutLike;
    LowerCut(a);
    LowerExact(a);
    CutLikeAt(a, Lower(a), o, s, t);
  }
}
