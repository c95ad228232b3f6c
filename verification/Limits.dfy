/**
 Runs under limits: on which every assertion met is true, or on which every loop makes at most so many rounds.
 Transformations of actions are exact against them.
 */
module Limits {
  import opened Options
  import opened Names
  import opened Logic
  import opened ClauseOps
  import opened Updates
  import opened Hiding
  import opened Substitution
  import opened Actions
  import opened Runs

  /** Whether assertions are to be true, and how many rounds a loop may make. */
  datatype Limit = Limit(checked: bool, rounds: Option<nat>)

  /** A run within the limits; callees run freely. */
  ghost predicate LimitedRun(l: Limit, a: Action, o: State, s: State, t: State)
    decreases a, 0, 0
  {
    match a
    case Assert(f) => Same(s, t) && (l.checked ==> True(f, o, s))
    case Sequence(es) => LimitedSeq(l, es, o, s, t)
    case Choice(bs) => exists k :: 0 <= k < |bs| && LimitedRun(l, bs[k], o, s, t)
    case If(c, thn, els) => if CondHolds(c, o, s) then LimitedRun(l, thn, o, s, t) else LimitedRun(l, els, o, s, t)
    case Local(xs, body) =>
      SameOn(xs, s, t) && exists s1: State, t1: State ::
        SameOff(xs, s1, s) && SameOff(xs, t1, t) && LimitedRun(l, body, o, s1, t1)
    case BindOldsAction(inner) => LimitedRun(l, inner, s, s, t)
    case While(c, _, _, body) =>
      !CondHolds(c, o, t) && exists n: nat ::
        (l.rounds.Some? ==> n <= l.rounds.value) && LimitedRounds(l, c, body, n, o, s, t)
    case IfSome(some, thn, els) =>
      || (SameOn(some.params, s, t) && exists w: State, t1: State ::
            Picked(some, o, s, w) && SameOff(some.params, t1, t) && LimitedRun(l, thn, o, w, t1))
      || ((forall w: State :: !Witnesses(some, o, s, w)) && LimitedRun(l, els, o, s, t))
    case _ => Exec(a, o, s, t)
  }

  ghost predicate LimitedSeq(l: Limit, es: seq<Action>, o: State, s: State, t: State)
    decreases es, 0, 0
  {
    if es == [] then Same(s, t) else
    var n := |es| - 1;
    exists m: State :: LimitedSeq(l, es[..n], o, s, m) && LimitedRun(l, es[n], o, m, t)
  }

  /** n rounds of the loop body, each entered with the condition true. */
  ghost predicate LimitedRounds(l: Limit, c: Expr, body: Action, n: nat, o: State, s: State, t: State)
    decreases body, 1, n
  {
    if n == 0 then Same(s, t) else
    exists m: State ::
      LimitedRounds(l, c, body, n - 1, o, s, m) && CondHolds(c, o, m) && LimitedRun(l, body, o, m, t)
  }

  /** A run within the limits comes to a failure: to a false assertion, if these need not be true, or to a call that
      fails. */
  ghost predicate LimitedFail(l: Limit, a: Action, o: State, s: State)
    decreases a, 0, 0
  {
    match a
    case Assert(f) => !l.checked && !True(f, o, s)
    case Sequence(es) => LimitedFailSeq(l, es, o, s)
    case Choice(bs) => exists k :: 0 <= k < |bs| && LimitedFail(l, bs[k], o, s)
    case If(c, thn, els) => if CondHolds(c, o, s) then LimitedFail(l, thn, o, s) else LimitedFail(l, els, o, s)
    case Local(xs, body) => exists s1: State :: SameOff(xs, s1, s) && LimitedFail(l, body, o, s1)
    case BindOldsAction(inner) => LimitedFail(l, inner, s, s)
    case While(c, _, _, body) =>
      exists n: nat, m: State ::
        && (l.rounds.Some? ==> n < l.rounds.value) && LimitedRounds(l, c, body, n, o, s, m)
        && CondHolds(c, o, m) && LimitedFail(l, body, o, m)
    case IfSome(some, thn, els) =>
      || (exists w: State :: Picked(some, o, s, w) && LimitedFail(l, thn, o, w))
      || ((forall w: State :: !Witnesses(some, o, s, w)) && LimitedFail(l, els, o, s))
    case _ => Aborts(a, o, s)
  }

  ghost predicate LimitedFailSeq(l: Limit, es: seq<Action>, o: State, s: State)
    decreases es, 0, 0
  {
    if es == [] then false else
    var n := |es| - 1;
    || LimitedFailSeq(l, es[..n], o, s)
    || exists m: State :: LimitedSeq(l, es[..n], o, s, m) && LimitedFail(l, es[n], o, m)
  }

  // ----- an action that runs as another does within the limits -----

  ghost predicate Like(l: Limit, a: Action, b: Action)
  {
    && (forall o: State, s: State, t: State :: Exec(b, o, s, t) <==> LimitedRun(l, a, o, s, t))
    && forall o: State, s: State :: Aborts(b, o, s) <==> LimitedFail(l, a, o, s)
  }

  lemma LikeAt(l: Limit, a: Action, b: Action, o: State, s: State, t: State)
    requires Like(l, a, b)
    ensures Exec(b, o, s, t) <==> LimitedRun(l, a, o, s, t)
    ensures Aborts(b, o, s) <==> LimitedFail(l, a, o, s)
  {
  }

  ghost predicate LikeAll(l: Limit, es: seq<Action>, fs: seq<Action>)
  {
    |es| == |fs| && forall k :: 0 <= k < |es| ==> Like(l, es[k], fs[k])
  }

  /** Actions that neither check anything nor contain another. */
  predicate Plain(a: Action)
  {
    a.Assume? || a.Assign? || a.Havoc? || a.Call?
  }

  lemma LikePlain(l: Limit, a: Action)
    requires Plain(a)
    ensures Like(l, a, a)
  {
    hide Exec, Aborts;
  }

  lemma {:induction false} LikeRun(l: Limit, es: seq<Action>, fs: seq<Action>, o: State, s: State, t: State)
    requires LikeAll(l, es, fs)
    ensures ExecSeq(fs, o, s, t) <==> LimitedSeq(l, es, o, s, t)
  {
    hide Exec, LimitedRun, Like;
    if es != [] {
      var n := |es| - 1;
      forall m: State
        ensures ExecSeq(fs[..n], o, s, m) <==> LimitedSeq(l, es[..n], o, s, m)
        ensures Exec(fs[n], o, m, t) <==> LimitedRun(l, es[n], o, m, t)
      {
        LikeRun(l, es[..n], fs[..n], o, s, m);
        LikeAt(l, es[n], fs[n], o, m, t);
      }
    }
  }

  lemma {:induction false} LikeFail(l: Limit, es: seq<Action>, fs: seq<Action>, o: State, s: State)
    requires LikeAll(l, es, fs)
    ensures AbortsSeq(fs, o, s) <==> LimitedFailSeq(l, es, o, s)
  {
    hide Exec, LimitedRun, Aborts, LimitedFail, Like, ExecSeq, LimitedSeq;
    if es != [] {
      var n := |es| - 1;
      LikeFail(l, es[..n], fs[..n], o, s);
      forall m: State
        ensures ExecSeq(fs[..n], o, s, m) <==> LimitedSeq(l, es[..n], o, s, m)
        ensures Aborts(fs[n], o, m) <==> LimitedFail(l, es[n], o, m)
      {
        LikeRun(l, es[..n], fs[..n], o, s, m);
        LikeAt(l, es[n], fs[n], o, m, m);
      }
    }
  }

  lemma LikeSequence(l: Limit, es: seq<Action>, fs: seq<Action>)
    requires LikeAll(l, es, fs)
    ensures Like(l, Sequence(es), Sequence(fs))
  {
    hide Like, LimitedSeq, LimitedFailSeq, ExecSeq, AbortsSeq;
    forall o: State, s: State, t: State
      ensures Exec(Sequence(fs), o, s, t) <==> LimitedRun(l, Sequence(es), o, s, t)
    {
      LikeRun(l, es, fs, o, s, t);
    }
    forall o: State, s: State
      ensures Aborts(Sequence(fs), o, s) <==> LimitedFail(l, Sequence(es), o, s)
    {
      LikeFail(l, es, fs, o, s);
    }
    LikeIs(l, Sequence(es), Sequence(fs));
  }

  lemma LikeIs(l: Limit, a: Action, b: Action)
    requires forall o: State, s: State, t: State :: Exec(b, o, s, t) <==> LimitedRun(l, a, o, s, t)
    requires forall o: State, s: State :: Aborts(b, o, s) <==> LimitedFail(l, a, o, s)
    ensures Like(l, a, b)
  {
  }

  lemma LikeChoice(l: Limit, es: seq<Action>, fs: seq<Action>)
    requires LikeAll(l, es, fs)
    ensures Like(l, Choice(es), Choice(fs))
  {
    hide Like;
    forall o: State, s: State, t: State
      ensures Exec(Choice(fs), o, s, t) <==> LimitedRun(l, Choice(es), o, s, t)
    {
      forall k | 0 <= k < |es|
        ensures Exec(fs[k], o, s, t) <==> LimitedRun(l, es[k], o, s, t)
      {
        LikeAt(l, es[k], fs[k], o, s, t);
      }
    }
    forall o: State, s: State
      ensures Aborts(Choice(fs), o, s) <==> LimitedFail(l, Choice(es), o, s)
    {
      forall k | 0 <= k < |es|
        ensures Aborts(fs[k], o, s) <==> LimitedFail(l, es[k], o, s)
      {
        LikeAt(l, es[k], fs[k], o, s, s);
      }
    }
    LikeIs(l, Choice(es), Choice(fs));
  }

  lemma LikeIf(l: Limit, c: Expr, a: Action, b: Action, a': Action, b': Action)
    requires Like(l, a, a') && Like(l, b, b')
    ensures Like(l, If(c, a, b), If(c, a', b'))
  {
    hide Like, Exec, Aborts, LimitedRun, LimitedFail;
    forall o: State, s: State, t: State
      ensures Exec(If(c, a', b'), o, s, t) <==> LimitedRun(l, If(c, a, b), o, s, t)
    {
      IfIs(c, a', b', o, s, t);
      LimitedIf(l, c, a, b, o, s, t);
      LikeAt(l, a, a', o, s, t);
      LikeAt(l, b, b', o, s, t);
    }
    forall o: State, s: State
      ensures Aborts(If(c, a', b'), o, s) <==> LimitedFail(l, If(c, a, b), o, s)
    {
      IfIs(c, a', b', o, s, s);
      LimitedIf(l, c, a, b, o, s, s);
      LikeAt(l, a, a', o, s, s);
      LikeAt(l, b, b', o, s, s);
    }
    LikeIs(l, If(c, a, b), If(c, a', b'));
  }

  lemma LimitedIf(l: Limit, c: Expr, a: Action, b: Action, o: State, s: State, t: State)
    ensures LimitedRun(l, If(c, a, b), o, s, t) <==>
            if CondHolds(c, o, s) then LimitedRun(l, a, o, s, t) else LimitedRun(l, b, o, s, t)
    ensures LimitedFail(l, If(c, a, b), o, s) <==>
            if CondHolds(c, o, s) then LimitedFail(l, a, o, s) else LimitedFail(l, b, o, s)
  {
    hide CondHolds;
  }

  lemma LikeLocal(l: Limit, xs: seq<Id>, a: Action, a': Action)
    requires Like(l, a, a')
    ensures Like(l, Local(xs, a), Local(xs, a'))
  {
    hide SameOff, SameOn;
    LikeIs(l, Local(xs, a), Local(xs, a'));
  }

  lemma LikeBind(l: Limit, a: Action, a': Action)
    requires Like(l, a, a')
    ensures Like(l, BindOldsAction(a), BindOldsAction(a'))
  {
    LikeIs(l, BindOldsAction(a), BindOldsAction(a'));
  }

  lemma LikeSome(l: Limit, some: SomeCond, a: Action, b: Action, a': Action, b': Action)
    requires Like(l, a, a') && Like(l, b, b')
    ensures Like(l, IfSome(some, a, b), IfSome(some, a', b'))
  {
    hide SameOff, SameOn, Picked, Witnesses;
    LikeIs(l, IfSome(some, a, b), IfSome(some, a', b'));
  }

  lemma {:induction false} LikeRounds(l: Limit, c: Expr, a: Action, a': Action, n: nat, o: State, s: State, t: State)
    requires Like(l, a, a')
    ensures Iterates(c, a', n, o, s, t) <==> LimitedRounds(l, c, a, n, o, s, t)
  {
    hide CondHolds, Exec, LimitedRun;
    if n > 0 {
      var k := n - 1;
      forall m: State
        ensures Iterates(c, a', k, o, s, m) <==> LimitedRounds(l, c, a, k, o, s, m)
      {
        LikeRounds(l, c, a, a', k, o, s, m);
      }
    }
  }

  /** A loop without a limit on its rounds. */
  lemma LikeWhile(l: Limit, c: Expr, invs: seq<Expr>, rank: Option<Expr>, a: Action, a': Action)
    requires Like(l, a, a') && l.rounds.None?
    ensures Like(l, While(c, invs, rank, a), While(c, invs, rank, a'))
  {
    hide CondHolds, Iterates, LimitedRounds;
    var p, q := While(c, invs, rank, a), While(c, invs, rank, a');
    forall o: State, n: nat, s: State, t: State
      ensures Iterates(c, a', n, o, s, t) <==> LimitedRounds(l, c, a, n, o, s, t)
    {
      LikeRounds(l, c, a, a', n, o, s, t);
    }
    LikeIs(l, p, q);
  }

  /** Without limits these are the runs and failures of the action. */
  lemma {:induction false} Unlimited(a: Action)
    ensures Like(Limit(false, None), a, a)
    decreases a
  {
    hide Like;
    var l := Limit(false, None);
    match a
    case Assert(f) => FreeAssert(f);
    case Sequence(es) =>
      forall k | 0 <= k < |es| ensures Like(l, es[k], es[k]) { Unlimited(es[k]); }
      LikeSequence(l, es, es);
    case Choice(bs) =>
      forall k | 0 <= k < |bs| ensures Like(l, bs[k], bs[k]) { Unlimited(bs[k]); }
      LikeChoice(l, bs, bs);
    case If(c, thn, els) => Unlimited(thn); Unlimited(els); LikeIf(l, c, thn, els, thn, els);
    case Local(xs, body) => Unlimited(body); LikeLocal(l, xs, body, body);
    case BindOldsAction(inner) => Unlimited(inner); LikeBind(l, inner, inner);
    case While(c, invs, rank, body) => Unlimited(body); LikeWhile(l, c, invs, rank, body, body);
    case IfSome(some, thn, els) => Unlimited(thn); Unlimited(els); LikeSome(l, some, thn, els, thn, els);
    case _ => LikePlain(l, a);
  }

  lemma FreeAssert(f: Expr)
    ensures Like(Limit(false, None), Assert(f), Assert(f))
  {
    hide True;
  }
}
