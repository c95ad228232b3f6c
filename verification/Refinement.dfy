/**
 Two ways in which one action may stand for another, and that both are kept by every way of building
 larger actions from smaller ones.
 */
module Refinement {
  import opened Names
  import opened Logic
  import opened ClauseOps
  import opened Updates
  import opened Hiding
  import opened Substitution
  import opened Actions
  import opened Runs

  /** Every run of a is one of b, and every aborting run. */
  ghost predicate Below(a: Action, b: Action)
  {
    && (forall o: State, s: State, t: State :: Exec(a, o, s, t) ==> Exec(b, o, s, t))
    && (forall o: State, s: State :: Aborts(a, o, s) ==> Aborts(b, o, s))
  }

  ghost predicate BelowAll(es: seq<Action>, fs: seq<Action>)
  {
    |es| == |fs| && forall k :: 0 <= k < |es| ==> Below(es[k], fs[k])
  }

  /** Where the second (or the first) cannot abort, the first cannot, and its runs are runs of the second. */
  ghost predicate Sim(second: bool, a: Action, b: Action)
  {
    forall o: State, s: State :: !Aborts(if second then b else a, o, s) ==> Within(a, b, o, s)
  }

  ghost predicate Within(a: Action, b: Action, o: State, s: State)
  {
    !Aborts(a, o, s) && forall t: State :: Exec(a, o, s, t) ==> Exec(b, o, s, t)
  }

  ghost predicate SimAll(second: bool, es: seq<Action>, fs: seq<Action>)
  {
    |es| == |fs| && forall k :: 0 <= k < |es| ==> Sim(second, es[k], fs[k])
  }

  lemma SimAt(second: bool, a: Action, b: Action, o: State, s: State)
    requires Sim(second, a, b) && !Aborts(if second then b else a, o, s)
    ensures Within(a, b, o, s)
  {
  }

  lemma BelowAt(a: Action, b: Action, o: State, s: State, t: State)
    requires Below(a, b)
    ensures Exec(a, o, s, t) ==> Exec(b, o, s, t)
    ensures Aborts(a, o, s) ==> Aborts(b, o, s)
  {
  }

  lemma BelowIs(a: Action, b: Action)
    requires forall o: State, s: State, t: State :: Exec(a, o, s, t) ==> Exec(b, o, s, t)
    requires forall o: State, s: State :: Aborts(a, o, s) ==> Aborts(b, o, s)
    ensures Below(a, b)
  {
  }

  // ----- inclusion -----

  lemma BelowSelf(a: Action)
    ensures Below(a, a)
  {
    hide Exec, Aborts;
  }

  lemma {:induction false} BelowSequence(es: seq<Action>, fs: seq<Action>)
    requires BelowAll(es, fs)
    ensures Below(Sequence(es), Sequence(fs))
  {
    hide Exec, Aborts, ExecSeq, AbortsSeq;
    forall o: State, s: State, t: State
      ensures Exec(Sequence(es), o, s, t) ==> Exec(Sequence(fs), o, s, t)
    {
      SequenceIs(es, o, s, t);
      SequenceIs(fs, o, s, t);
      if ExecSeq(es, o, s, t) { BelowRun(es, fs, o, s, t); }
    }
    forall o: State, s: State
      ensures Aborts(Sequence(es), o, s) ==> Aborts(Sequence(fs), o, s)
    {
      SequenceIs(es, o, s, s);
      SequenceIs(fs, o, s, s);
      if AbortsSeq(es, o, s) { BelowAbort(es, fs, o, s); }
    }
    BelowIs(Sequence(es), Sequence(fs));
  }

  lemma {:induction false} BelowRun(es: seq<Action>, fs: seq<Action>, o: State, s: State, t: State)
    requires BelowAll(es, fs) && ExecSeq(es, o, s, t)
    ensures ExecSeq(fs, o, s, t)
  {
    hide Exec, Aborts;
    if es != [] {
      var n := |es| - 1;
      var m: State :| ExecSeq(es[..n], o, s, m) && Exec(es[n], o, m, t);
      BelowRun(es[..n], fs[..n], o, s, m);
      assert Below(es[n], fs[n]);
    }
  }

  lemma {:induction false} BelowAbort(es: seq<Action>, fs: seq<Action>, o: State, s: State)
    requires BelowAll(es, fs) && AbortsSeq(es, o, s)
    ensures AbortsSeq(fs, o, s)
  {
    hide Exec, Aborts;
    var n := |es| - 1;
    if AbortsSeq(es[..n], o, s) {
      BelowAbort(es[..n], fs[..n], o, s);
    } else {
      var m: State :| ExecSeq(es[..n], o, s, m) && Aborts(es[n], o, m);
      BelowRun(es[..n], fs[..n], o, s, m);
      assert Below(es[n], fs[n]);
    }
  }

  lemma BelowChoice(es: seq<Action>, fs: seq<Action>)
    requires BelowAll(es, fs)
    ensures Below(Choice(es), Choice(fs))
  {
    forall o: State, s: State, t: State | Exec(Choice(es), o, s, t)
      ensures Exec(Choice(fs), o, s, t)
    {
      var k :| 0 <= k < |es| && Exec(es[k], o, s, t);
      assert Below(es[k], fs[k]);
    }
    forall o: State, s: State | Aborts(Choice(es), o, s)
      ensures Aborts(Choice(fs), o, s)
    {
      var k :| 0 <= k < |es| && Aborts(es[k], o, s);
      assert Below(es[k], fs[k]);
    }
  }

  lemma BelowIf(c: Expr, a: Action, b: Action, a': Action, b': Action)
    requires Below(a, a') && Below(b, b')
    ensures Below(If(c, a, b), If(c, a', b'))
  {
    hide CondHolds, Exec, Aborts;
    forall o: State, s: State, t: State
      ensures Exec(If(c, a, b), o, s, t) ==> Exec(If(c, a', b'), o, s, t)
    {
      IfIs(c, a, b, o, s, t);
      IfIs(c, a', b', o, s, t);
      BelowAt(a, a', o, s, t);
      BelowAt(b, b', o, s, t);
    }
    forall o: State, s: State
      ensures Aborts(If(c, a, b), o, s) ==> Aborts(If(c, a', b'), o, s)
    {
      IfIs(c, a, b, o, s, s);
      IfIs(c, a', b', o, s, s);
      BelowAt(a, a', o, s, s);
      BelowAt(b, b', o, s, s);
    }
    BelowIs(If(c, a, b), If(c, a', b'));
  }

  lemma BelowLocal(xs: seq<Id>, a: Action, a': Action)
    requires Below(a, a')
    ensures Below(Local(xs, a), Local(xs, a'))
  {
    hide SameOff, SameOn;
    forall o: State, s: State, t: State | Exec(Local(xs, a), o, s, t)
      ensures Exec(Local(xs, a'), o, s, t)
    {
      var s1: State, t1: State :| SameOff(xs, s1, s) && SameOff(xs, t1, t) && Exec(a, o, s1, t1);
      BelowAt(a, a', o, s1, t1);
    }
    forall o: State, s: State | Aborts(Local(xs, a), o, s)
      ensures Aborts(Local(xs, a'), o, s)
    {
      var s1: State :| SameOff(xs, s1, s) && Aborts(a, o, s1);
      BelowAt(a, a', o, s1, s1);
    }
  }

  lemma BelowBindOlds(a: Action, a': Action)
    requires Below(a, a')
    ensures Below(BindOldsAction(a), BindOldsAction(a'))
  {
    forall o: State, s: State, t: State
      ensures Exec(BindOldsAction(a), o, s, t) ==> Exec(BindOldsAction(a'), o, s, t)
      ensures Aborts(BindOldsAction(a), o, s) ==> Aborts(BindOldsAction(a'), o, s)
    {
      BelowAt(a, a', s, s, t);
    }
  }

  lemma {:induction false} BelowRounds(c: Expr, a: Action, a': Action, n: nat, o: State, s: State, t: State)
    requires Below(a, a') && Iterates(c, a, n, o, s, t)
    ensures Iterates(c, a', n, o, s, t)
  {
    hide Exec, Aborts;
    if n > 0 {
      var m := LastRound(c, a, n, o, s, t);
      BelowRounds(c, a, a', n - 1, o, s, m);
      BelowAt(a, a', o, m, t);
      OneMore(c, a', n, o, s, m, t) by { hide Iterates; }
    }
  }

  lemma BelowSome(some: SomeCond, a: Action, b: Action, a': Action, b': Action)
    requires Below(a, a') && Below(b, b')
    ensures Below(IfSome(some, a, b), IfSome(some, a', b'))
  {
    hide SameOff, SameOn, Picked, Witnesses;
    forall o: State, s: State, t: State
      ensures Exec(IfSome(some, a, b), o, s, t) ==> Exec(IfSome(some, a', b'), o, s, t)
      ensures Aborts(IfSome(some, a, b), o, s) ==> Aborts(IfSome(some, a', b'), o, s)
    {
      forall w: State, t1: State
        ensures Exec(a, o, w, t1) ==> Exec(a', o, w, t1)
        ensures Aborts(a, o, w) ==> Aborts(a', o, w)
      {
        BelowAt(a, a', o, w, t1);
      }
      BelowAt(b, b', o, s, t);
    }
    BelowIs(IfSome(some, a, b), IfSome(some, a', b'));
  }

  // ----- simulation -----

  lemma {:induction false} SimSequence(second: bool, es: seq<Action>, fs: seq<Action>)
    requires SimAll(second, es, fs)
    ensures Sim(second, Sequence(es), Sequence(fs))
  {
    hide AbortsSeq, ExecSeq, Exec, Aborts;
    forall o: State, s: State | !Aborts(if second then Sequence(fs) else Sequence(es), o, s)
      ensures Within(Sequence(es), Sequence(fs), o, s)
    {
      SequenceIs(es, o, s, s);
      SequenceIs(fs, o, s, s);
      SimRun(second, es, fs, o, s);
      forall t: State
        ensures Exec(Sequence(es), o, s, t) ==> Exec(Sequence(fs), o, s, t)
      {
        SequenceIs(es, o, s, t);
        SequenceIs(fs, o, s, t);
      }
    }
  }

  ghost predicate WithinSeq(es: seq<Action>, fs: seq<Action>, o: State, s: State)
  {
    !AbortsSeq(es, o, s) && forall t: State :: ExecSeq(es, o, s, t) ==> ExecSeq(fs, o, s, t)
  }

  lemma {:induction false} SimRun(second: bool, es: seq<Action>, fs: seq<Action>, o: State, s: State)
    requires SimAll(second, es, fs) && !AbortsSeq(if second then fs else es, o, s)
    ensures WithinSeq(es, fs, o, s)
  {
    hide Exec, Aborts;
    if es == [] {
      assert fs == [];
    } else {
      var n := |es| - 1;
      assert !AbortsSeq((if second then fs else es)[..n], o, s);
      SimRun(second, es[..n], fs[..n], o, s);
      forall m: State | ExecSeq(es[..n], o, s, m)
        ensures Within(es[n], fs[n], o, m)
      {
        assert ExecSeq(fs[..n], o, s, m);
        SimAt(second, es[n], fs[n], o, m);
      }
      assert !AbortsSeq(es, o, s);
      assert fs == fs[..n] + [fs[n]];
      forall t: State | ExecSeq(es, o, s, t)
        ensures ExecSeq(fs, o, s, t)
      {
        var m := Unsnoc(es, o, s, t);
        assert Within(es[n], fs[n], o, m);
        ExecSnoc(fs[..n], fs[n], o, s, m, t);
      }
    }
  }

  lemma SimChoice(second: bool, es: seq<Action>, fs: seq<Action>)
    requires SimAll(second, es, fs)
    ensures Sim(second, Choice(es), Choice(fs))
  {
    forall o: State, s: State | !Aborts(if second then Choice(fs) else Choice(es), o, s)
      ensures Within(Choice(es), Choice(fs), o, s)
    {
      forall k | 0 <= k < |es|
        ensures Within(es[k], fs[k], o, s)
      {
        SimAt(second, es[k], fs[k], o, s);
      }
      assert !Aborts(Choice(es), o, s);
      forall t: State | Exec(Choice(es), o, s, t)
        ensures Exec(Choice(fs), o, s, t)
      {
        var k :| 0 <= k < |es| && Exec(es[k], o, s, t);
        assert Exec(fs[k], o, s, t);
      }
    }
  }

  lemma SimIf(second: bool, c: Expr, a: Action, b: Action, a': Action, b': Action)
    requires Sim(second, a, a') && Sim(second, b, b')
    ensures Sim(second, If(c, a, b), If(c, a', b'))
  {
    hide CondHolds, Exec, Aborts;
    var p, q := If(c, a, b), If(c, a', b');
    forall o: State, s: State | !Aborts(if second then q else p, o, s)
      ensures Within(p, q, o, s)
    {
      forall t: State
        ensures Exec(p, o, s, t) <==> if CondHolds(c, o, s) then Exec(a, o, s, t) else Exec(b, o, s, t)
        ensures Exec(q, o, s, t) <==> if CondHolds(c, o, s) then Exec(a', o, s, t) else Exec(b', o, s, t)
      {
        IfIs(c, a, b, o, s, t);
        IfIs(c, a', b', o, s, t);
      }
      IfIs(c, a, b, o, s, s);
      IfIs(c, a', b', o, s, s);
      if CondHolds(c, o, s) { SimAt(second, a, a', o, s); } else { SimAt(second, b, b', o, s); }
    }
  }

  lemma WithinLocal(xs: seq<Id>, a: Action, a': Action, o: State, s: State)
    requires forall s1: State :: SameOff(xs, s1, s) ==> Within(a, a', o, s1)
    ensures Within(Local(xs, a), Local(xs, a'), o, s)
  {
    hide SameOff, SameOn;
    forall t: State | Exec(Local(xs, a), o, s, t)
      ensures Exec(Local(xs, a'), o, s, t)
    {
      var s1: State, t1: State :| SameOff(xs, s1, s) && SameOff(xs, t1, t) && Exec(a, o, s1, t1);
      assert Exec(a', o, s1, t1);
    }
  }

  lemma SimLocal(second: bool, xs: seq<Id>, a: Action, a': Action)
    requires Sim(second, a, a')
    ensures Sim(second, Local(xs, a), Local(xs, a'))
  {
    hide SameOff, SameOn, Exec, Within;
    forall o: State, s: State | !Aborts(if second then Local(xs, a') else Local(xs, a), o, s)
      ensures Within(Local(xs, a), Local(xs, a'), o, s)
    {
      forall s1: State | SameOff(xs, s1, s)
        ensures Within(a, a', o, s1)
      {
        SimAt(second, a, a', o, s1);
      }
      WithinLocal(xs, a, a', o, s);
    }
  }

  lemma SimBindOlds(second: bool, a: Action, a': Action)
    requires Sim(second, a, a')
    ensures Sim(second, BindOldsAction(a), BindOldsAction(a'))
  {
    var p, q := BindOldsAction(a), BindOldsAction(a');
    forall o: State, s: State | !Aborts(if second then q else p, o, s)
      ensures Within(p, q, o, s)
    {
      SimAt(second, a, a', s, s);
    }
  }

  /** Each branch within the other's, so the choice between them. */
  lemma WithinSome(some: SomeCond, a: Action, b: Action, a': Action, b': Action, o: State, s: State)
    requires forall w: State :: Picked(some, o, s, w) ==> Within(a, a', o, w)
    requires (forall w: State :: !Witnesses(some, o, s, w)) ==> Within(b, b', o, s)
    ensures Within(IfSome(some, a, b), IfSome(some, a', b'), o, s)
  {
    hide SameOff, SameOn, Picked, Witnesses;
    var p, q := IfSome(some, a, b), IfSome(some, a', b');
    forall t: State | Exec(p, o, s, t)
      ensures Exec(q, o, s, t)
    {
      if w: State, t1: State :| Picked(some, o, s, w) && SameOff(some.params, t1, t) && Exec(a, o, w, t1) {
        assert Exec(a', o, w, t1);
      }
    }
  }

  lemma SimSome(second: bool, some: SomeCond, a: Action, b: Action, a': Action, b': Action)
    requires Sim(second, a, a') && Sim(second, b, b')
    ensures Sim(second, IfSome(some, a, b), IfSome(some, a', b'))
  {
    hide SameOff, SameOn, Picked, Witnesses, Exec, Within;
    var p, q := IfSome(some, a, b), IfSome(some, a', b');
    forall o: State, s: State | !Aborts(if second then q else p, o, s)
      ensures Within(p, q, o, s)
    {
      forall w: State | Picked(some, o, s, w)
        ensures Within(a, a', o, w)
      {
        SimAt(second, a, a', o, w);
      }
      if forall w: State :: !Witnesses(some, o, s, w) {
        SimAt(second, b, b', o, s);
      }
      WithinSome(some, a, b, a', b', o, s);
    }
  }

  lemma SimSelf(second: bool, a: Action)
    ensures Sim(second, a, a)
  {
  }
}
