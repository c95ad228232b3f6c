/**
 Taking runs apart: the parts of a run of a sequence, a conditional, a loop.
 */
module Runs {
  import opened Names
  import opened Logic
  import opened ClauseOps
  import opened Updates
  import opened Hiding
  import opened Substitution
  import opened Actions

  lemma SequenceIs(es: seq<Action>, o: State, s: State, t: State)
    ensures Exec(Sequence(es), o, s, t) <==> ExecSeq(es, o, s, t)
    ensures Aborts(Sequence(es), o, s) <==> AbortsSeq(es, o, s)
  {
    hide ExecSeq, AbortsSeq;
  }

  lemma IfIs(c: Expr, a: Action, b: Action, o: State, s: State, t: State)
    ensures Exec(If(c, a, b), o, s, t) <==> if CondHolds(c, o, s) then Exec(a, o, s, t) else Exec(b, o, s, t)
    ensures Aborts(If(c, a, b), o, s) <==> if CondHolds(c, o, s) then Aborts(a, o, s) else Aborts(b, o, s)
  {
    hide CondHolds;
  }

  lemma BindIs(a: Action, o: State, s: State, t: State)
    ensures Exec(BindOldsAction(a), o, s, t) <==> Exec(a, s, s, t)
    ensures Aborts(BindOldsAction(a), o, s) <==> Aborts(a, s, s)
  {
  }

  // ----- runs of sequences -----

  lemma ExecSnoc(es: seq<Action>, e: Action, o: State, s: State, m: State, t: State)
    requires ExecSeq(es, o, s, m) && Exec(e, o, m, t)
    ensures ExecSeq(es + [e], o, s, t)
  {
    assert (es + [e])[..|es|] == es;
  }

  lemma AbortSnoc(es: seq<Action>, e: Action, o: State, s: State, m: State)
    requires ExecSeq(es, o, s, m) && Aborts(e, o, m)
    ensures AbortsSeq(es + [e], o, s)
  {
    assert (es + [e])[..|es|] == es;
  }

  lemma {:induction false} AbortPrefix(es: seq<Action>, fs: seq<Action>, o: State, s: State)
    requires AbortsSeq(es, o, s)
    ensures AbortsSeq(es + fs, o, s)
  {
    if fs == [] {
      assert es + fs == es;
    } else {
      var n := |fs| - 1;
      AbortPrefix(es, fs[..n], o, s);
      assert (es + fs)[..|es + fs| - 1] == es + fs[..n];
    }
  }

  lemma Unsnoc(all: seq<Action>, o: State, s: State, t: State) returns (m: State)
    requires all != [] && ExecSeq(all, o, s, t)
    ensures ExecSeq(all[..|all| - 1], o, s, m) && Exec(all[|all| - 1], o, m, t)
  {
    hide Exec;
    var n := |all| - 1;
    m :| ExecSeq(all[..n], o, s, m) && Exec(all[n], o, m, t);
  }

  lemma SeqLast(all: seq<Action>, es: seq<Action>, a: Action, o: State, s: State, t: State)
    requires all == es + [a]
    ensures ExecSeq(all, o, s, t) <==> exists m: State :: ExecSeq(es, o, s, m) && Exec(a, o, m, t)
    ensures AbortsSeq(all, o, s) <==> AbortsSeq(es, o, s) || exists m: State :: ExecSeq(es, o, s, m) && Aborts(a, o, m)
  {
    hide Exec, Aborts;
    var n := |all| - 1;
    assert all[..n] == es && all[n] == a;
    if ExecSeq(all, o, s, t) {
      var m := Unsnoc(all, o, s, t);
    }
    if AbortsSeq(all, o, s) && !AbortsSeq(es, o, s) {
      var m: State :| ExecSeq(all[..n], o, s, m) && Aborts(all[n], o, m);
      assert ExecSeq(es, o, s, m) && Aborts(a, o, m);
    }
  }

  // ----- runs of loops -----

  lemma WhileRun(a: Action, o: State, s: State, t: State) returns (n: nat)
    requires a.While? && Exec(a, o, s, t)
    ensures !CondHolds(a.cond, o, t) && Iterates(a.cond, a.body, n, o, s, t)
  {
    hide CondHolds;
    n :| Iterates(a.cond, a.body, n, o, s, t);
  }

  lemma LastRound(c: Expr, a: Action, n: nat, o: State, s: State, t: State) returns (m: State)
    requires n > 0 && Iterates(c, a, n, o, s, t)
    ensures Iterates(c, a, n - 1, o, s, m) && CondHolds(c, o, m) && Exec(a, o, m, t)
  {
    hide Exec, CondHolds;
    m :| Iterates(c, a, n - 1, o, s, m) && CondHolds(c, o, m) && Exec(a, o, m, t);
  }

  lemma OneMore(c: Expr, a: Action, n: nat, o: State, s: State, m: State, t: State)
    requires n > 0 && Iterates(c, a, n - 1, o, s, m) && CondHolds(c, o, m) && Exec(a, o, m, t)
    ensures Iterates(c, a, n, o, s, t)
  {
    hide Exec, CondHolds;
  }
}
