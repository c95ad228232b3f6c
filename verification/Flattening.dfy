/**
 Putting actions one after the other: a sequence among them is replaced by its elements.
 */
module Flattening {
  import opened Names
  import opened Logic
  import opened ClauseOps
  import opened Updates
  import opened Hiding
  import opened Actions
  import opened Runs
  import opened Equivariance
  import opened Atoms
  import opened Compiler

  function Elements(a: Action): seq<Action>
  {
    if a.Sequence? then a.elems else [a]
  }

  function Flattened(actions: seq<Action>): seq<Action>
  {
    if actions == [] then [] else
    Flattened(actions[..|actions| - 1]) + Elements(actions[|actions| - 1])
  }

  lemma FlattenedSnoc(actions: seq<Action>, a: Action)
    ensures Flattened(actions + [a]) == Flattened(actions) + Elements(a)
  {
    hide Elements;
    assert (actions + [a])[..|actions|] == actions;
  }

  lemma {:induction false} FlattenedBoth(xs: seq<Action>, ys: seq<Action>)
    ensures Flattened(xs + ys) == Flattened(xs) + Flattened(ys)
    decreases |ys|
  {
    if ys == [] {
      assert xs + ys == xs;
    } else {
      hide Flattened, Elements;
      var n := |ys| - 1;
      var init, last := ys[..n], ys[n];
      assert ys == init + [last] && xs + ys == (xs + init) + [last];
      FlattenedBoth(xs, init);
      FlattenedSnoc(xs + init, last);
      FlattenedSnoc(init, last);
    }
  }

  /** In the place of a sequence are its elements, in the place of another action that action, between what the
      actions before and after give. */
  lemma FlattenedIn(init: seq<Action>, a: Action, rest: seq<Action>)
    ensures Flattened(init + [a] + rest) ==
            Flattened(init) + (if a.Sequence? then a.elems else [a]) + Flattened(rest)
  {
    hide Flattened;
    FlattenedBoth(init + [a], rest);
    FlattenedSnoc(init, a);
  }

  method ConcatActions(actions: seq<Action>) returns (all: seq<Action>)
    ensures all == Flattened(actions)
  {
    all := [];
    for i := 0 to |actions|
      invariant all == Flattened(actions[..i])
    {
      assert actions[..i + 1][..i] == actions[..i];
      if actions[i].Sequence? {
        all := all + actions[i].elems;
      } else {
        all := all + [actions[i]];
      }
    }
    assert actions[..|actions|] == actions;
  }

  lemma ExecSeqSame(es: seq<Action>, o: State, s: State, m: State, t: State)
    requires ExecSeq(es, o, s, m) && Same(m, t)
    ensures ExecSeq(es, o, s, t)
  {
    hide Exec, ExecSeq;
    Runs.SequenceIs(es, o, s, m);
    Runs.SequenceIs(es, o, s, t);
    ExecSame(Sequence(es), o, s, m, o, s, t);
  }

  lemma NoneIs(o: State, s: State, t: State)
    ensures ExecSeq([], o, s, t) <==> Same(s, t)
    ensures !AbortsSeq([], o, s)
  {
  }

  /** A run of two lists is a run of the one and then of the other. */
  lemma {:induction false} BothSplit(es: seq<Action>, fs: seq<Action>, o: State, s: State, t: State) returns (m: State)
    requires ExecSeq(es + fs, o, s, t)
    ensures ExecSeq(es, o, s, m) && ExecSeq(fs, o, m, t)
    decreases |fs|
  {
    hide Exec, ExecSeq;
    if fs == [] {
      assert es + fs == es;
      NoneIs(o, t, t);
      m := t;
    } else {
      var n := |fs| - 1;
      assert fs == fs[..n] + [fs[n]] && es + fs == (es + fs[..n]) + [fs[n]];
      var k := Unsnoc(es + fs, o, s, t);
      m := BothSplit(es, fs[..n], o, s, k);
      ExecSnoc(fs[..n], fs[n], o, m, k, t);
    }
  }

  lemma {:induction false} BothJoin(es: seq<Action>, fs: seq<Action>, o: State, s: State, m: State, t: State)
    requires ExecSeq(es, o, s, m) && ExecSeq(fs, o, m, t)
    ensures ExecSeq(es + fs, o, s, t)
    decreases |fs|
  {
    hide Exec, ExecSeq;
    if fs == [] {
      assert es + fs == es;
      NoneIs(o, m, t);
      ExecSeqSame(es, o, s, m, t);
    } else {
      var n := |fs| - 1;
      assert es + fs == (es + fs[..n]) + [fs[n]];
      var k := Unsnoc(fs, o, m, t);
      BothJoin(es, fs[..n], o, s, m, k);
      ExecSnoc(es + fs[..n], fs[n], o, s, k, t);
    }
  }

  lemma {:induction false} AbortSplit(es: seq<Action>, fs: seq<Action>, o: State, s: State) returns (m: State)
    requires AbortsSeq(es + fs, o, s) && !AbortsSeq(es, o, s)
    ensures ExecSeq(es, o, s, m) && AbortsSeq(fs, o, m)
    decreases |fs|
  {
    hide Exec, ExecSeq, Aborts, AbortsSeq;
    assert es + [] == es;
    m := s;
    if fs != [] {
      var n := |fs| - 1;
      var init, last := fs[..n], fs[n];
      assert fs == init + [last] && es + fs == (es + init) + [last];
      SeqLast(es + fs, es + init, last, o, s, s);
      if AbortsSeq(es + init, o, s) {
        m := AbortSplit(es, init, o, s);
        AbortPrefix(init, [last], o, m);
      } else {
        var k: State :| ExecSeq(es + init, o, s, k) && Aborts(last, o, k);
        m := BothSplit(es, init, o, s, k);
        AbortSnoc(init, last, o, m, k);
      }
    }
  }

  lemma {:induction false} AbortJoin(es: seq<Action>, fs: seq<Action>, o: State, s: State, m: State)
    requires ExecSeq(es, o, s, m) && AbortsSeq(fs, o, m)
    ensures AbortsSeq(es + fs, o, s)
    decreases |fs|
  {
    hide Exec, ExecSeq, Aborts, AbortsSeq;
    NoneIs(o, m, m);
    var n := |fs| - 1;
    var init, last := fs[..n], fs[n];
    assert fs == init + [last] && es + fs == (es + init) + [last];
    SeqLast(fs, init, last, o, m, m);
    if AbortsSeq(init, o, m) {
      AbortJoin(es, init, o, s, m);
      AbortPrefix(es + init, [last], o, s);
    } else {
      var k: State :| ExecSeq(init, o, m, k) && Aborts(last, o, k);
      BothJoin(es, init, o, s, m, k);
      AbortSnoc(es + init, last, o, s, k);
    }
  }

  lemma ElementsRun(a: Action, o: State, s: State, t: State)
    ensures ExecSeq(Elements(a), o, s, t) <==> Exec(a, o, s, t)
    ensures AbortsSeq(Elements(a), o, s) <==> Aborts(a, o, s)
  {
    hide Exec, ExecSeq, Aborts, AbortsSeq;
    if a.Sequence? { Runs.SequenceIs(a.elems, o, s, t); } else { SeqOne(a, o, s, t); }
  }

  /** Flattening keeps all runs. */
  lemma {:induction false} FlattenedRuns(actions: seq<Action>, o: State, s: State, t: State)
    ensures ExecSeq(Flattened(actions), o, s, t) <==> ExecSeq(actions, o, s, t)
    decreases |actions|
  {
    hide Exec, ExecSeq, Elements;
    if actions != [] {
      var n := |actions| - 1;
      var init, last := actions[..n], actions[n];
      assert actions == init + [last];
      if ExecSeq(Flattened(actions), o, s, t) {
        var m := BothSplit(Flattened(init), Elements(last), o, s, t);
        FlattenedRuns(init, o, s, m);
        ElementsRun(last, o, m, t);
        ExecSnoc(init, last, o, s, m, t);
      }
      if ExecSeq(actions, o, s, t) {
        var m := Unsnoc(actions, o, s, t);
        FlattenedRuns(init, o, s, m);
        ElementsRun(last, o, m, t);
        BothJoin(Flattened(init), Elements(last), o, s, m, t);
      }
    }
  }

  /** And all failures. */
  lemma {:induction false} FlattenedAborts(actions: seq<Action>, o: State, s: State)
    ensures AbortsSeq(Flattened(actions), o, s) <==> AbortsSeq(actions, o, s)
    decreases |actions|
  {
    hide Exec, ExecSeq, Aborts, AbortsSeq, Elements;
    if actions != [] {
      var n := |actions| - 1;
      var init, last := actions[..n], actions[n];
      assert actions == init + [last];
      FlattenedAborts(init, o, s);
      SeqLast(actions, init, last, o, s, s);
      if AbortsSeq(init, o, s) {
        AbortPrefix(Flattened(init), Elements(last), o, s);
      } else {
        if AbortsSeq(Flattened(actions), o, s) {
          var m := AbortSplit(Flattened(init), Elements(last), o, s);
          FlattenedRuns(init, o, s, m);
          ElementsRun(last, o, m, m);
        }
        if AbortsSeq(actions, o, s) {
          var m: State :| ExecSeq(init, o, s, m) && Aborts(last, o, m);
          FlattenedRuns(init, o, s, m);
          ElementsRun(last, o, m, m);
          AbortJoin(Flattened(init), Elements(last), o, s, m);
        }
      }
    }
  }

  lemma {:induction false} FlattenedCore(actions: seq<Action>)
    requires forall a :: a in actions ==> Core(a)
    ensures forall e :: e in Flattened(actions) ==> Core(e)
  {
    if actions != [] {
      var n := |actions| - 1;
      FlattenedCore(actions[..n]);
      assert actions[n] in actions;
      ElementsCore(actions[n]);
      hide Core, Elements;
    }
  }

  lemma ElementsCore(a: Action)
    requires Core(a)
    ensures forall e :: e in Elements(a) ==> Core(e)
  {
  }

  /** So the update of the flattened list has the transitions and failing states of the nested one. */
  lemma FlattenedUpdate(actions: seq<Action>, o: State, s: State, t: State)
    requires forall a :: a in actions ==> Core(a)
    ensures forall e :: e in Flattened(actions) ==> Core(e)
    ensures Rel(ComposeAll(Flattened(actions)), o, s, t) <==> Rel(ComposeAll(actions), o, s, t)
    ensures Fails(ComposeAll(Flattened(actions)), o, s) <==> Fails(ComposeAll(actions), o, s)
  {
    hide Core, Rel, Fails, ComposeAll, ExecSeq, AbortsSeq, Flattened, WellFormed;
    FlattenedCore(actions);
    ComposeAllCorrect(actions);
    ComposeAllCorrect(Flattened(actions));
    FlattenedRuns(actions, o, s, t);
    FlattenedAborts(actions, o, s);
  }
}
