/**
 Transformations of actions: assertions into assumptions, and loops into bounded conditionals.
 */
module Transforms {
  import opened Options
  import opened Names
  import opened Logic
  import opened ClauseOps
  import opened Updates
  import opened Hiding
  import opened Substitution
  import opened Actions
  import opened Runs
  import opened Refinement
  import opened Limits

  // ----- assertions into assumptions -----

  /** Assertions become assumptions; callees are left as they are. */
  function AssertToAssume(a: Action): Action
    decreases a, 1
  {
    match a
    case Assert(f) => Assume(f)
    case Sequence(es) => Sequence(AssertsToAssumes(es))
    case Choice(bs) => Choice(AssertsToAssumes(bs))
    case If(c, thn, els) => If(c, AssertToAssume(thn), AssertToAssume(els))
    case Local(xs, body) => Local(xs, AssertToAssume(body))
    case BindOldsAction(inner) => BindOldsAction(AssertToAssume(inner))
    case While(c, invs, rank, body) => While(c, invs, rank, AssertToAssume(body))
    case IfSome(some, thn, els) => IfSome(some, AssertToAssume(thn), AssertToAssume(els))
    case _ => a
  }

  function AssertsToAssumes(es: seq<Action>): (r: seq<Action>)
    ensures |r| == |es| && forall k :: 0 <= k < |es| ==> r[k] == AssertToAssume(es[k])
    decreases es, 0
  {
    if es == [] then [] else AssertsToAssumes(es[..|es| - 1]) + [AssertToAssume(es[|es| - 1])]
  }

  lemma BelowWhile(c: Expr, invs: seq<Expr>, rank: Option<Expr>, a: Action, b: Action)
    requires Below(a, b)
    ensures Below(While(c, invs, rank, a), While(c, invs, rank, b))
  {
    hide CondHolds;
    var p, q := While(c, invs, rank, a), While(c, invs, rank, b);
    forall o: State, s: State, t: State | Exec(p, o, s, t)
      ensures Exec(q, o, s, t)
    {
      var n := WhileRun(p, o, s, t);
      BelowRounds(c, a, b, n, o, s, t);
    }
    forall o: State, s: State | Aborts(p, o, s)
      ensures Aborts(q, o, s)
    {
      var n: nat, m: State :| Iterates(c, a, n, o, s, m) && CondHolds(c, o, m) && Aborts(a, o, m);
      BelowRounds(c, a, b, n, o, s, m);
      BelowAt(a, b, o, m, m);
    }
  }

  /** The converted action has no runs and no failures that the original does not have. */
  lemma {:induction false} AssertToAssumeBelow(a: Action)
    ensures Below(AssertToAssume(a), a)
    decreases a
  {
    hide Below;
    match a
    case Assert(f) => AssumeBelowAssert(f);
    case Sequence(es) =>
      forall k | 0 <= k < |es| ensures Below(AssertsToAssumes(es)[k], es[k]) { AssertToAssumeBelow(es[k]); }
      BelowSequence(AssertsToAssumes(es), es);
    case Choice(bs) =>
      forall k | 0 <= k < |bs| ensures Below(AssertsToAssumes(bs)[k], bs[k]) { AssertToAssumeBelow(bs[k]); }
      BelowChoice(AssertsToAssumes(bs), bs);
    case If(c, thn, els) =>
      AssertToAssumeBelow(thn); AssertToAssumeBelow(els);
      BelowIf(c, AssertToAssume(thn), AssertToAssume(els), thn, els);
    case Local(xs, body) => AssertToAssumeBelow(body); BelowLocal(xs, AssertToAssume(body), body);
    case BindOldsAction(inner) => AssertToAssumeBelow(inner); BelowBindOlds(AssertToAssume(inner), inner);
    case While(c, invs, rank, body) => AssertToAssumeBelow(body); BelowWhile(c, invs, rank, AssertToAssume(body), body);
    case IfSome(some, thn, els) =>
      AssertToAssumeBelow(thn); AssertToAssumeBelow(els);
      BelowSome(some, AssertToAssume(thn), AssertToAssume(els), thn, els);
    case _ => BelowSelf(a);
  }

  lemma AssumeBelowAssert(f: Expr)
    ensures Below(Assume(f), Assert(f))
  {
  }

  lemma AssumeForAssert(f: Expr)
    ensures Sim(false, Assert(f), Assume(f))
  {
  }

  lemma {:induction false} SimRounds(c: Expr, a: Action, b: Action, n: nat, o: State, s: State, t: State)
    requires Sim(false, a, b) && Iterates(c, a, n, o, s, t)
    requires forall k: nat, m: State :: k < n && Iterates(c, a, k, o, s, m) && CondHolds(c, o, m) ==> !Aborts(a, o, m)
    ensures Iterates(c, b, n, o, s, t)
  {
    hide Exec, Aborts, CondHolds;
    if n > 0 {
      var m := LastRound(c, a, n, o, s, t);
      SimRounds(c, a, b, n - 1, o, s, m);
      SimAt(false, a, b, o, m);
      OneMore(c, b, n, o, s, m, t) by { hide Iterates; }
    }
  }

  lemma SimWhile(c: Expr, invs: seq<Expr>, rank: Option<Expr>, a: Action, b: Action)
    requires Sim(false, a, b)
    ensures Sim(false, While(c, invs, rank, a), While(c, invs, rank, b))
  {
    hide CondHolds;
    var p, q := While(c, invs, rank, a), While(c, invs, rank, b);
    forall o: State, s: State | !Aborts(p, o, s)
      ensures Within(p, q, o, s)
    {
      forall t: State | Exec(p, o, s, t)
        ensures Exec(q, o, s, t)
      {
        var n := WhileRun(p, o, s, t);
        SimRounds(c, a, b, n, o, s, t);
      }
    }
  }

  /** From a state where the action does not fail, the converted action has the same runs. */
  lemma {:induction false} AssertToAssumeSim(a: Action)
    ensures Sim(false, a, AssertToAssume(a))
    decreases a
  {
    hide Sim;
    match a
    case Assert(f) => AssumeForAssert(f);
    case Sequence(es) =>
      forall k | 0 <= k < |es| ensures Sim(false, es[k], AssertsToAssumes(es)[k]) { AssertToAssumeSim(es[k]); }
      SimSequence(false, es, AssertsToAssumes(es));
    case Choice(bs) =>
      forall k | 0 <= k < |bs| ensures Sim(false, bs[k], AssertsToAssumes(bs)[k]) { AssertToAssumeSim(bs[k]); }
      SimChoice(false, bs, AssertsToAssumes(bs));
    case If(c, thn, els) =>
      AssertToAssumeSim(thn); AssertToAssumeSim(els);
      SimIf(false, c, thn, els, AssertToAssume(thn), AssertToAssume(els));
    case Local(xs, body) => AssertToAssumeSim(body); SimLocal(false, xs, body, AssertToAssume(body));
    case BindOldsAction(inner) => AssertToAssumeSim(inner); SimBindOlds(false, inner, AssertToAssume(inner));
    case While(c, invs, rank, body) => AssertToAssumeSim(body); SimWhile(c, invs, rank, body, AssertToAssume(body));
    case IfSome(some, thn, els) =>
      AssertToAssumeSim(thn); AssertToAssumeSim(els);
      SimSome(false, some, thn, els, AssertToAssume(thn), AssertToAssume(els));
    case _ => SimSelf(false, a);
  }

  /** Runs and failures of the converted action are among those of the original, and from every state from
      which the original does not fail they have the same runs. */
  lemma AssertToAssumeCorrect(a: Action, o: State, s: State, t: State)
    ensures Exec(AssertToAssume(a), o, s, t) ==> Exec(a, o, s, t)
    ensures Aborts(AssertToAssume(a), o, s) ==> Aborts(a, o, s)
    ensures !Aborts(a, o, s) ==> (Exec(a, o, s, t) <==> Exec(AssertToAssume(a), o, s, t))
  {
    hide Exec, Aborts;
    AssertToAssumeBelow(a);
    AssertToAssumeSim(a);
    if !Aborts(a, o, s) { SimAt(false, a, AssertToAssume(a), o, s); }
  }

  /** No limit on loops, but every assertion met is true. */
  const CHECKED := Limit(true, None)

  lemma {:induction false} ConvertedLike(a: Action)
    ensures Like(CHECKED, a, AssertToAssume(a))
    decreases a
  {
    hide Like;
    match a
    case Assert(f) => AssumeLike(f);
    case Sequence(es) =>
      forall k | 0 <= k < |es| ensures Like(CHECKED, es[k], AssertsToAssumes(es)[k]) { ConvertedLike(es[k]); }
      LikeSequence(CHECKED, es, AssertsToAssumes(es));
    case Choice(bs) =>
      forall k | 0 <= k < |bs| ensures Like(CHECKED, bs[k], AssertsToAssumes(bs)[k]) { ConvertedLike(bs[k]); }
      LikeChoice(CHECKED, bs, AssertsToAssumes(bs));
    case If(c, thn, els) =>
      ConvertedLike(thn); ConvertedLike(els);
      LikeIf(CHECKED, c, thn, els, AssertToAssume(thn), AssertToAssume(els));
    case Local(xs, body) => ConvertedLike(body); LikeLocal(CHECKED, xs, body, AssertToAssume(body));
    case BindOldsAction(inner) => ConvertedLike(inner); LikeBind(CHECKED, inner, AssertToAssume(inner));
    case While(c, invs, rank, body) =>
      ConvertedLike(body);
      LikeWhile(CHECKED, c, invs, rank, body, AssertToAssume(body));
    case IfSome(some, thn, els) =>
      ConvertedLike(thn); ConvertedLike(els);
      LikeSome(CHECKED, some, thn, els, AssertToAssume(thn), AssertToAssume(els));
    case _ => LikePlain(CHECKED, a);
  }

  lemma AssumeLike(f: Expr)
    ensures Like(CHECKED, Assert(f), Assume(f))
  {
    hide True;
  }

  /** The converted action has exactly those runs of the original on which every assertion met is true, from
      every state, and fails exactly where such a run comes to a call that fails. */
  lemma AssertToAssumeExact(a: Action, o: State, s: State, t: State)
    ensures Exec(AssertToAssume(a), o, s, t) <==> LimitedRun(CHECKED, a, o, s, t)
    ensures Aborts(AssertToAssume(a), o, s) <==> LimitedFail(CHECKED, a, o, s)
  {
    hide Exec, Aborts, LimitedRun, LimitedFail, Like;
    ConvertedLike(a);
    LikeAt(CHECKED, a, AssertToAssume(a), o, s, t);
  }

  predicate NoCalls(a: Action)
  {
    match a
    case Sequence(es) => forall e :: e in es ==> NoCalls(e)
    case Choice(bs) => forall b :: b in bs ==> NoCalls(b)
    case If(_, thn, els) => NoCalls(thn) && NoCalls(els)
    case Local(_, body) => NoCalls(body)
    case BindOldsAction(inner) => NoCalls(inner)
    case While(_, _, _, body) => NoCalls(body)
    case IfSome(_, thn, els) => NoCalls(thn) && NoCalls(els)
    case Call(_, _, _, _, _) => false
    case _ => true
  }

  /** Without calls, nothing is left that could fail. */
  lemma {:induction false} ConvertedNeverAborts(a: Action, o: State, s: State)
    requires NoCalls(a)
    ensures !Aborts(AssertToAssume(a), o, s)
    decreases a, 1
  {
    hide Exec, CondHolds, SameOff, Picked, Witnesses;
    match a
    case Sequence(es) => ConvertedSeq(es, o, s);
    case Choice(bs) =>
      forall k | 0 <= k < |bs| ensures !Aborts(AssertsToAssumes(bs)[k], o, s) { ConvertedNeverAborts(bs[k], o, s); }
    case If(_, thn, els) => ConvertedNeverAborts(thn, o, s); ConvertedNeverAborts(els, o, s);
    case Local(_, body) => forall s1: State ensures !Aborts(AssertToAssume(body), o,
                                                            s1) { ConvertedNeverAborts(body, o, s1); }
    case BindOldsAction(inner) => ConvertedNeverAborts(inner, s, s);
    case While(_, _, _, body) =>
      forall m: State
        ensures !Aborts(AssertToAssume(body), o, m)
      {
        ConvertedNeverAborts(body, o, m);
      }
    case IfSome(_, thn, els) =>
      forall w: State ensures !Aborts(AssertToAssume(thn), o, w) { ConvertedNeverAborts(thn, o, w); }
      ConvertedNeverAborts(els, o, s);
    case _ =>
  }

  lemma {:induction false} ConvertedSeq(es: seq<Action>, o: State, s: State)
    requires forall e :: e in es ==> NoCalls(e)
    ensures !AbortsSeq(AssertsToAssumes(es), o, s)
    decreases es, 0
  {
    hide Exec, Aborts;
    if es != [] {
      var n := |es| - 1;
      ConvertedSeq(es[..n], o, s);
      assert AssertsToAssumes(es)[..n] == AssertsToAssumes(es[..n]);
      forall m: State
        ensures !Aborts(AssertsToAssumes(es)[n], o, m)
      {
        assert es[n] in es;
        ConvertedNeverAborts(es[n], o, m);
      }
    }
  }
}
