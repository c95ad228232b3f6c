/**
 Loops.  A loop is verified through its invariants: assert them, havoc what the body modifies, assume
 them, and run the body once.  If that expansion cannot fail, it covers every run of the real loop.
 */
module Loops {
  import opened Options
  import opened Names
  import opened Logic
  import opened ClauseOps
  import opened Updates
  import opened Hiding
  import opened Substitution
  import opened Actions
  import opened Runs
  import opened Equivariance
  import opened Atoms
  import opened Compiler
  import opened Flattening

  // ----- the invariant expansion -----

  const RANK_ID := Id("$rank", 0)

  function Asserts(fs: seq<Expr>): (r: seq<Action>)
    ensures |r| == |fs| && forall k :: 0 <= k < |fs| ==> r[k] == Assert(fs[k])
  {
    seq(|fs|, k requires 0 <= k < |fs| => Assert(fs[k]))
  }

  function Assumes(fs: seq<Expr>): (r: seq<Action>)
    ensures |r| == |fs| && forall k :: 0 <= k < |fs| ==> r[k] == Assume(fs[k])
  {
    seq(|fs|, k requires 0 <= k < |fs| => Assume(fs[k]))
  }

  function Havocs(xs: seq<Id>): (r: seq<Action>)
    ensures |r| == |xs| && forall k :: 0 <= k < |xs| ==> r[k] == Havoc(Target(xs[k], []))
  {
    seq(|xs|, k requires 0 <= k < |xs| => Havoc(Target(xs[k], [])))
  }

  function RankNow(): Expr { App(BaseSym(RANK_ID), []) }

  function EntryAsserts(rank: Option<Expr>): seq<Expr>
  {
    match rank
    case None => []
    case Some(r) => [Not(Op(Less, r, Lit(0)))]
  }

  function RankAssumes(rank: Option<Expr>): seq<Expr>
  {
    match rank
    case None => []
    case Some(r) => [Op(Equals, RankNow(), r)]
  }

  function ExitAsserts(rank: Option<Expr>): seq<Expr>
  {
    match rank
    case None => []
    case Some(r) => [Op(Less, r, RankNow())]
  }

  function LoopBody(invs: seq<Expr>, rank: Option<Expr>, body: Action): seq<Action>
  {
    Asserts(EntryAsserts(rank)) + [body] + Asserts(ExitAsserts(rank)) + Asserts(invs) + [Assume(Lit(0))]
  }

  function LoopParts(c: Expr, invs: seq<Expr>, rank: Option<Expr>, body: Action, modset: seq<Id>): seq<Action>
  {
    Prefix(invs, rank, modset) + [If(c, Sequence(LoopBody(invs, rank, body)), Sequence([]))]
  }

  /** The expansion up to its test. */
  function Prefix(invs: seq<Expr>, rank: Option<Expr>, modset: seq<Id>): seq<Action>
  {
    Asserts(invs) + Havocs(modset) + Assumes(invs + RankAssumes(rank))
  }

  /** The loop as a sequence without loops, for a body already free of them. */
  function Expand(c: Expr, invs: seq<Expr>, rank: Option<Expr>, body: Action): Action
    requires Core(body)
  {
    var parts := Sequence(LoopParts(c, invs, rank, body, IntUpdate(body).mod));
    if rank.None? then parts else Local([RANK_ID], parts)
  }

  // ----- runs of lists of checks -----

  ghost predicate AllTrue(fs: seq<Expr>, o: State, s: State)
  {
    forall f :: f in fs ==> True(f, o, s)
  }

  lemma TrueSame(f: Expr, o: State, s: State, t: State)
    requires True(f, o, s) && Same(s, t)
    ensures True(f, o, t)
  {
    hide True;
    AssumeIs(f, o, s, s);
    AssumeIs(f, o, t, t);
    ExecSame(Assume(f), o, s, s, o, t, t);
  }

  lemma AssumeIs(f: Expr, o: State, s: State, t: State)
    ensures Exec(Assume(f), o, s, t) <==> Same(s, t) && True(f, o, s)
    ensures Exec(Assert(f), o, s, t) <==> Same(s, t)
    ensures !Aborts(Assume(f), o, s) && (Aborts(Assert(f), o, s) <==> !True(f, o, s))
  {
    hide True;
  }

  lemma AllTrueSame(fs: seq<Expr>, o: State, s: State, t: State)
    requires AllTrue(fs, o, s) && Same(s, t)
    ensures AllTrue(fs, o, t)
  {
    hide True, Same;
    forall f | f in fs
      ensures True(f, o, t)
    {
      TrueSame(f, o, s, t);
    }
  }

  lemma AllTrueLast(fs: seq<Expr>, o: State, s: State)
    requires fs != []
    ensures AllTrue(fs, o, s) <==> AllTrue(fs[..|fs| - 1], o, s) && True(fs[|fs| - 1], o, s)
  {
    hide True;
    assert fs == fs[..|fs| - 1] + [fs[|fs| - 1]];
  }

  /** Assertions go on, true or not. */
  lemma {:induction false} AssertsRun(fs: seq<Expr>, o: State, s: State, t: State)
    ensures ExecSeq(Asserts(fs), o, s, t) <==> Same(s, t)
  {
    if fs == [] {
      NoneIs(o, s, t);
    } else {
      hide Exec, ExecSeq;
      var n := |fs| - 1;
      SeqLast(Asserts(fs), Asserts(fs[..n]), Assert(fs[n]), o, s, t);
      forall m: State
        ensures ExecSeq(Asserts(fs[..n]), o, s, m) <==> Same(s, m)
        ensures Exec(Assert(fs[n]), o, m, t) <==> Same(m, t)
      {
        AssertsRun(fs[..n], o, s, m);
        AssumeIs(fs[n], o, m, t);
      }
      assert Same(s, t) ==> ExecSeq(Asserts(fs[..n]), o, s, t) && Exec(Assert(fs[n]), o, t, t);
    }
  }

  /** They fail if one is false. */
  lemma {:induction false} AssertsAbort(fs: seq<Expr>, o: State, s: State)
    ensures AbortsSeq(Asserts(fs), o, s) <==> !AllTrue(fs, o, s)
  {
    hide Exec, ExecSeq, Aborts, AbortsSeq, AllTrue;
    if fs == [] {
      NoneIs(o, s, s);
      NoneTrue(o, s);
    } else {
      var n := |fs| - 1;
      AllTrueLast(fs, o, s);
      AssertsAbort(fs[..n], o, s);
      SeqLast(Asserts(fs), Asserts(fs[..n]), Assert(fs[n]), o, s, s);
      AssertsRun(fs[..n], o, s, s);
      AssumeIs(fs[n], o, s, s);
      forall m: State | ExecSeq(Asserts(fs[..n]), o, s, m) && Aborts(Assert(fs[n]), o, m)
        ensures !True(fs[n], o, s)
      {
        AssertsRun(fs[..n], o, s, m);
        AssumeIs(fs[n], o, m, m);
        if True(fs[n], o, s) { TrueSame(fs[n], o, s, m); }
      }
    }
  }

  lemma NoneTrue(o: State, s: State)
    ensures AllTrue([], o, s)
  {
  }

  /** Assumptions go on if all are true. */
  lemma {:induction false} AssumesRun(fs: seq<Expr>, o: State, s: State, t: State)
    ensures ExecSeq(Assumes(fs), o, s, t) <==> Same(s, t) && AllTrue(fs, o, s)
  {
    hide Exec, ExecSeq, AllTrue;
    if fs == [] {
      NoneIs(o, s, t);
      NoneTrue(o, s);
    } else {
      var n := |fs| - 1;
      AllTrueLast(fs, o, s);
      SeqLast(Assumes(fs), Assumes(fs[..n]), Assume(fs[n]), o, s, t);
      forall m: State
        ensures ExecSeq(Assumes(fs[..n]), o, s, m) <==> Same(s, m) && AllTrue(fs[..n], o, s)
        ensures Exec(Assume(fs[n]), o, m, t) <==> Same(m, t) && True(fs[n], o, m)
        ensures Same(s, m) ==> (True(fs[n], o, m) <==> True(fs[n], o, s))
      {
        AssumesRun(fs[..n], o, s, m);
        AssumeIs(fs[n], o, m, t);
        if Same(s, m) {
          if True(fs[n], o, m) { TrueSame(fs[n], o, m, s); }
          if True(fs[n], o, s) { TrueSame(fs[n], o, s, m); }
        }
      }
      assert ExecSeq(Assumes(fs[..n]), o, s, s) <==> AllTrue(fs[..n], o, s);
    }
  }

  lemma {:induction false} AssumesNeverAbort(fs: seq<Expr>, o: State, s: State)
    ensures !AbortsSeq(Assumes(fs), o, s)
  {
    if fs != [] {
      hide Exec, ExecSeq, Aborts, AbortsSeq;
      var n := |fs| - 1;
      AssumesNeverAbort(fs[..n], o, s);
      SeqLast(Assumes(fs), Assumes(fs[..n]), Assume(fs[n]), o, s, s);
      forall m: State
        ensures !Aborts(Assume(fs[n]), o, m)
      {
        AssumeIs(fs[n], o, m, m);
      }
    }
  }

  lemma HavocIs(x: Id, o: State, s: State, t: State)
    ensures Exec(Havoc(Target(x, [])), o, s, t) <==> SameOff([x], s, t)
    ensures !Aborts(Havoc(Target(x, [])), o, s)
  {
    assert forall i: Id :: i in [x] <==> i == x;
  }

  /** Havocking a list of symbols reaches exactly the states that agree elsewhere. */
  lemma {:induction false} HavocsRun(xs: seq<Id>, o: State, s: State, t: State)
    ensures ExecSeq(Havocs(xs), o, s, t) <==> SameOff(xs, s, t)
  {
    hide Exec, ExecSeq;
    if xs == [] {
      NoneIs(o, s, t);
    } else {
      var n := |xs| - 1;
      var init, x := xs[..n], xs[n];
      assert xs == init + [x];
      SeqLast(Havocs(xs), Havocs(init), Havoc(Target(x, [])), o, s, t);
      forall m: State
        ensures ExecSeq(Havocs(init), o, s, m) <==> SameOff(init, s, m)
        ensures Exec(Havoc(Target(x, [])), o, m, t) <==> SameOff([x], m, t)
      {
        HavocsRun(init, o, s, m);
        HavocIs(x, o, m, t);
      }
      if SameOff(xs, s, t) {
        var m := Mixed([x], s, t);
        assert forall i: Id :: i in xs <==> i in init || i == x;
        HavocsRun(init, o, s, m);
        HavocIs(x, o, m, t);
        ExecSnoc(Havocs(init), Havoc(Target(x, [])), o, s, m, t);
        assert Havocs(xs) == Havocs(init) + [Havoc(Target(x, []))];
      }
    }
  }

  lemma {:induction false} HavocsNeverAbort(xs: seq<Id>, o: State, s: State)
    ensures !AbortsSeq(Havocs(xs), o, s)
  {
    if xs != [] {
      hide Exec, ExecSeq, Aborts, AbortsSeq;
      var n := |xs| - 1;
      HavocsNeverAbort(xs[..n], o, s);
      SeqLast(Havocs(xs), Havocs(xs[..n]), Havoc(Target(xs[n], [])), o, s, s);
      forall m: State
        ensures !Aborts(Havoc(Target(xs[n], [])), o, m)
      {
        HavocIs(xs[n], o, m, m);
      }
    }
  }

  // ----- runs of the expansion's parts -----

  /** Up to its test, the expansion reaches exactly the states that agree off the modified symbols and satisfy what is
      assumed. */
  lemma PrefixRun(invs: seq<Expr>, rank: Option<Expr>, modset: seq<Id>, o: State, s: State, t: State)
    ensures ExecSeq(Prefix(invs, rank, modset), o, s, t) <==>
            SameOff(modset, s, t) && AllTrue(invs + RankAssumes(rank), o, t)
  {
    hide Exec, ExecSeq, AllTrue;
    var fs := invs + RankAssumes(rank);
    var checks, havocs := Asserts(invs), Havocs(modset);
    if ExecSeq(Prefix(invs, rank, modset), o, s, t) {
      var m := BothSplit(checks + havocs, Assumes(fs), o, s, t);
      var k := BothSplit(checks, havocs, o, s, m);
      AssertsRun(invs, o, s, k);
      HavocsRun(modset, o, k, m);
      AssumesRun(fs, o, m, t);
      AllTrueSame(fs, o, m, t);
    }
    if SameOff(modset, s, t) && AllTrue(fs, o, t) {
      AssertsRun(invs, o, s, s);
      HavocsRun(modset, o, s, t);
      AssumesRun(fs, o, t, t);
      BothJoin(checks, havocs, o, s, s, t);
      BothJoin(checks + havocs, Assumes(fs), o, s, t, t);
    }
  }

  /** And fails exactly if an invariant is false. */
  lemma PrefixAborts(invs: seq<Expr>, rank: Option<Expr>, modset: seq<Id>, o: State, s: State)
    ensures AbortsSeq(Prefix(invs, rank, modset), o, s) <==> !AllTrue(invs, o, s)
  {
    hide Exec, ExecSeq, Aborts, AbortsSeq, AllTrue;
    var fs := invs + RankAssumes(rank);
    var checks, havocs := Asserts(invs), Havocs(modset);
    AssertsAbort(invs, o, s);
    if AbortsSeq(checks, o, s) {
      AbortPrefix(checks, havocs, o, s);
      AbortPrefix(checks + havocs, Assumes(fs), o, s);
    } else if AbortsSeq(checks + havocs, o, s) {
      var m := AbortSplit(checks, havocs, o, s);
      HavocsNeverAbort(modset, o, m);
    } else if AbortsSeq(Prefix(invs, rank, modset), o, s) {
      var m := AbortSplit(checks + havocs, Assumes(fs), o, s);
      AssumesNeverAbort(fs, o, m);
    }
  }

  /** The round that is run from m goes wrong: a check before it, the body, or a check after it. */
  ghost predicate RoundFails(invs: seq<Expr>, rank: Option<Expr>, body: Action, o: State, m: State)
  {
    || !AllTrue(EntryAsserts(rank), o, m)
    || Aborts(body, o, m)
    || exists t: State :: Exec(body, o, m, t) && !(AllTrue(ExitAsserts(rank), o, t) && AllTrue(invs, o, t))
  }

  /** The checks after the body, and the end of the path. */
  function After(invs: seq<Expr>, rank: Option<Expr>): seq<Action>
  {
    Asserts(ExitAsserts(rank) + invs) + [Assume(Lit(0))]
  }

  lemma LoopBodyIs(invs: seq<Expr>, rank: Option<Expr>, body: Action)
    ensures LoopBody(invs, rank, body) == Asserts(EntryAsserts(rank)) + ([body] + After(invs, rank))
  {
    assert Asserts(ExitAsserts(rank) + invs) == Asserts(ExitAsserts(rank)) + Asserts(invs);
  }

  lemma FalseIs(o: State, s: State, t: State)
    ensures !Exec(Assume(Lit(0)), o, s, t) && !Aborts(Assume(Lit(0)), o, s)
  {
    assert Eval(Lit(0), Now(o, s), map[]) == 0;
  }

  lemma AfterAborts(invs: seq<Expr>, rank: Option<Expr>, o: State, t: State)
    ensures AbortsSeq(After(invs, rank), o, t) <==> !(AllTrue(ExitAsserts(rank), o, t) && AllTrue(invs, o, t))
  {
    hide Exec, ExecSeq, Aborts, AbortsSeq, True;
    var fs := ExitAsserts(rank) + invs;
    AssertsAbort(fs, o, t);
    SeqLast(After(invs, rank), Asserts(fs), Assume(Lit(0)), o, t, t);
    forall m: State
      ensures !Aborts(Assume(Lit(0)), o, m)
    {
      FalseIs(o, m, m);
    }
    assert AllTrue(fs, o, t) <==> AllTrue(ExitAsserts(rank), o, t) && AllTrue(invs, o, t);
  }

  /** The path through the body does not come to its end, and fails exactly if the round goes wrong. */
  lemma LoopBodyAborts(invs: seq<Expr>, rank: Option<Expr>, body: Action, o: State, m: State)
    ensures AbortsSeq(LoopBody(invs, rank, body), o, m) <==> RoundFails(invs, rank, body, o, m)
  {
    hide Exec, ExecSeq, Aborts, AbortsSeq, AllTrue, After;
    LoopBodyIs(invs, rank, body);
    var entry, rest := Asserts(EntryAsserts(rank)), [body] + After(invs, rank);
    AssertsAbort(EntryAsserts(rank), o, m);
    if AbortsSeq(entry, o, m) {
      AbortPrefix(entry, rest, o, m);
    } else {
      if AbortsSeq(LoopBody(invs, rank, body), o, m) {
        var k := AbortSplit(entry, rest, o, m);
        AssertsRun(EntryAsserts(rank), o, m, k);
        RestAborts(invs, rank, body, o, m, k);
      }
      if RoundFails(invs, rank, body, o, m) {
        AbortsRest(invs, rank, body, o, m);
        AssertsRun(EntryAsserts(rank), o, m, m);
        AbortJoin(entry, rest, o, m, m);
      }
    }
  }

  lemma RestAborts(invs: seq<Expr>, rank: Option<Expr>, body: Action, o: State, m: State, k: State)
    requires AbortsSeq([body] + After(invs, rank), o, k) && Same(m, k)
    ensures RoundFails(invs, rank, body, o, m)
  {
    hide Exec, ExecSeq, Aborts, AbortsSeq, AllTrue, After;
    SeqOne(body, o, k, k);
    if AbortsSeq([body], o, k) {
      AbortsSame(body, o, k, o, m);
    } else {
      var t := AbortSplit([body], After(invs, rank), o, k);
      SeqOne(body, o, k, t);
      ExecSame(body, o, k, t, o, m, t);
      AfterAborts(invs, rank, o, t);
    }
  }

  lemma AbortsRest(invs: seq<Expr>, rank: Option<Expr>, body: Action, o: State, m: State)
    requires RoundFails(invs, rank, body, o, m) && AllTrue(EntryAsserts(rank), o, m)
    ensures AbortsSeq([body] + After(invs, rank), o, m)
  {
    hide Exec, ExecSeq, Aborts, AbortsSeq, AllTrue, After;
    SeqOne(body, o, m, m);
    if Aborts(body, o, m) {
      AbortPrefix([body], After(invs, rank), o, m);
    } else {
      var t: State :| Exec(body, o, m, t) && !(AllTrue(ExitAsserts(rank), o, t) && AllTrue(invs, o, t));
      SeqOne(body, o, m, t);
      AfterAborts(invs, rank, o, t);
      AbortJoin([body], After(invs, rank), o, m, t);
    }
  }

  lemma LoopBodyEnds(invs: seq<Expr>, rank: Option<Expr>, body: Action, o: State, m: State, t: State)
    ensures !ExecSeq(LoopBody(invs, rank, body), o, m, t)
  {
    hide Exec, ExecSeq;
    if ExecSeq(LoopBody(invs, rank, body), o, m, t) {
      var k := Unsnoc(LoopBody(invs, rank, body), o, m, t);
      FalseIs(o, k, t);
    }
  }

  /** The test: out, or into a round that is checked and then ends. */
  lemma TestIs(c: Expr, invs: seq<Expr>, rank: Option<Expr>, body: Action, o: State, m: State, t: State)
    ensures var test := If(c, Sequence(LoopBody(invs, rank, body)), Sequence([]));
            && (Exec(test, o, m, t) <==> !CondHolds(c, o, m) && Same(m, t))
            && (Aborts(test, o, m) <==> CondHolds(c, o, m) && RoundFails(invs, rank, body, o, m))
  {
    hide Exec, ExecSeq, Aborts, AbortsSeq, CondHolds, LoopBody, RoundFails;
    IfIs(c, Sequence(LoopBody(invs, rank, body)), Sequence([]), o, m, t);
    Runs.SequenceIs(LoopBody(invs, rank, body), o, m, t);
    Runs.SequenceIs([], o, m, t);
    NoneIs(o, m, t);
    LoopBodyEnds(invs, rank, body, o, m, t);
    LoopBodyAborts(invs, rank, body, o, m);
  }

  lemma PartsRun(c: Expr, invs: seq<Expr>, rank: Option<Expr>, body: Action, modset: seq<Id>, o: State, s: State,
                 t: State)
    ensures ExecSeq(LoopParts(c, invs, rank, body, modset), o, s, t) <==>
            SameOff(modset, s, t) && AllTrue(invs + RankAssumes(rank), o, t) && !CondHolds(c, o, t)
  {
    hide Exec, ExecSeq, AllTrue, CondHolds, LoopBody;
    var test := If(c, Sequence(LoopBody(invs, rank, body)), Sequence([]));
    var prefix, fs := Prefix(invs, rank, modset), invs + RankAssumes(rank);
    hide Prefix;
    if ExecSeq(LoopParts(c, invs, rank, body, modset), o, s, t) {
      var m := Unsnoc(LoopParts(c, invs, rank, body, modset), o, s, t);
      assert LoopParts(c, invs, rank, body, modset)[..|prefix|] == prefix;
      PrefixRun(invs, rank, modset, o, s, m);
      TestIs(c, invs, rank, body, o, m, t);
      AllTrueSame(fs, o, m, t);
      CondUnmoved(c, o, m, t);
    }
    if SameOff(modset, s, t) && AllTrue(fs, o, t) && !CondHolds(c, o, t) {
      PrefixRun(invs, rank, modset, o, s, t);
      TestIs(c, invs, rank, body, o, t, t);
      ExecSnoc(prefix, test, o, s, t, t);
    }
  }

  lemma CondUnmoved(c: Expr, o: State, s: State, t: State)
    requires Same(s, t)
    ensures CondHolds(c, o, s) <==> CondHolds(c, o, t)
  {
    EvalCoincide(c, Now(o, s), Now(o, t), map[]);
  }

  /** The state is one at which the loop is tested, and a round from there goes wrong. */
  ghost predicate TestFails(c: Expr, invs: seq<Expr>, rank: Option<Expr>, body: Action, modset: seq<Id>, o: State,
                            s: State, m: State)
  {
    && SameOff(modset, s, m) && AllTrue(invs + RankAssumes(rank), o, m) && CondHolds(c, o, m)
    && RoundFails(invs, rank, body, o, m)
  }

  lemma PartsAbort(c: Expr, invs: seq<Expr>, rank: Option<Expr>, body: Action, modset: seq<Id>, o: State, s: State)
    ensures AbortsSeq(LoopParts(c, invs, rank, body, modset), o, s) <==>
            !AllTrue(invs, o, s) || exists m: State :: TestFails(c, invs, rank, body, modset, o, s, m)
  {
    hide Exec, ExecSeq, Aborts, AbortsSeq, AllTrue, CondHolds, LoopBody, Prefix, RoundFails;
    var test := If(c, Sequence(LoopBody(invs, rank, body)), Sequence([]));
    var prefix := Prefix(invs, rank, modset);
    PrefixAborts(invs, rank, modset, o, s);
    SeqLast(LoopParts(c, invs, rank, body, modset), prefix, test, o, s, s);
    if m: State :| ExecSeq(prefix, o, s, m) && Aborts(test, o, m) {
      PrefixRun(invs, rank, modset, o, s, m);
      TestIs(c, invs, rank, body, o, m, m);
      assert TestFails(c, invs, rank, body, modset, o, s, m);
    }
    if m: State :| TestFails(c, invs, rank, body, modset, o, s, m) {
      PrefixRun(invs, rank, modset, o, s, m);
      TestIs(c, invs, rank, body, o, m, m);
      AbortSnoc(prefix, test, o, s, m);
    }
  }

  // ----- what expansion relies on -----

  predicate Without(xs: set<Sym>, i: Id)
  {
    forall x :: x in xs && Program(x) ==> x.id != i
  }

  /** The update neither changes the symbol nor depends on it. */
  predicate Avoids(u: Update, i: Id)
  {
    i !in u.mod && Without(Used(u.tr), i) && Without(Used(u.pre), i)
  }

  /** What expansion relies on: invariants that are compiled exactly, a closed rank, and, when there is a
      rank, that nothing else in the loop mentions the symbol that holds it. */
  predicate LoopOk(c: Expr, invs: seq<Expr>, rank: Option<Expr>, body: Action)
  {
    && Core(body) && StateExpr(c) && Closed(c)
    && (forall f :: f in invs ==> Core(Assume(f)))
    && (rank.Some? ==>
          && StateExpr(rank.value) && Closed(rank.value) && Without(Syms(rank.value), RANK_ID)
          && Without(Syms(c), RANK_ID) && (forall f :: f in invs ==> Without(Syms(f), RANK_ID))
          && Avoids(IntUpdate(body), RANK_ID))
  }

  lemma ExpandCore(c: Expr, invs: seq<Expr>, rank: Option<Expr>, body: Action)
    requires LoopOk(c, invs, rank, body)
    ensures Core(Expand(c, invs, rank, body))
  {
    hide IntUpdate, Avoids, Without, StateExpr, Closed, Leading, LoopBody;
    BodyCore(invs, rank, body);
    IfCore(c, LoopBody(invs, rank, body));
    PrefixCore(invs, rank, IntUpdate(body).mod);
    AppendCore(Prefix(invs, rank, IntUpdate(body).mod), If(c, Sequence(LoopBody(invs, rank, body)), Sequence([])));
    var parts := LoopParts(c, invs, rank, body, IntUpdate(body).mod);
    ScopeCore(rank, parts);
  }

  lemma ScopeCore(rank: Option<Expr>, parts: seq<Action>)
    requires forall e :: e in parts ==> Core(e)
    ensures Core(if rank.None? then Sequence(parts) else Local([RANK_ID], Sequence(parts)))
  {
    assert Core(Sequence(parts));
  }

  lemma AppendCore(es: seq<Action>, a: Action)
    requires (forall e :: e in es ==> Core(e)) && Core(a)
    ensures forall e :: e in es + [a] ==> Core(e)
  {
    hide Core;
  }

  lemma PrefixCore(invs: seq<Expr>, rank: Option<Expr>, modset: seq<Id>)
    requires (forall f :: f in invs ==> Core(Assume(f))) && (rank.Some? ==> StateExpr(rank.value))
    ensures forall e :: e in Prefix(invs, rank, modset) ==> Core(e)
  {
    RankCore(rank);
    forall f | f in invs
      ensures Core(Assert(f))
    {
      CoreState(f);
    }
    forall x: Id
      ensures Core(Havoc(Target(x, [])))
    {
    }
    hide Core;
  }

  lemma BodyCore(invs: seq<Expr>, rank: Option<Expr>, body: Action)
    requires Core(body) && (forall f :: f in invs ==> Core(Assume(f))) && (rank.Some? ==> StateExpr(rank.value))
    ensures forall e :: e in LoopBody(invs, rank, body) ==> Core(e)
  {
    RankCore(rank);
    FalseCore();
    forall f | f in invs
      ensures Core(Assert(f))
    {
      CoreState(f);
    }
    hide Core, EntryAsserts, ExitAsserts;
  }

  lemma IfCore(c: Expr, b: seq<Action>)
    requires StateExpr(c) && Closed(c) && forall e :: e in b ==> Core(e)
    ensures Core(If(c, Sequence(b), Sequence([])))
  {
    assert Core(Sequence(b)) && Core(Sequence([]));
  }

  lemma FalseCore()
    ensures Core(Assume(Lit(0)))
  {
  }

  lemma RankCore(rank: Option<Expr>)
    requires rank.Some? ==> StateExpr(rank.value)
    ensures forall f :: f in EntryAsserts(rank) || f in ExitAsserts(rank) || f in RankAssumes(rank) ==>
              Core(Assume(f)) && Core(Assert(f))
  {
    if rank.Some? {
      var r := rank.value;
      assert Syms(RankNow()) == {BaseSym(RANK_ID)};
      assert Syms(Op(Equals, RankNow(), r)) == {BaseSym(RANK_ID)} + Syms(r);
      assert Syms(Op(Less, r, RankNow())) == Syms(r) + {BaseSym(RANK_ID)};
      assert Syms(Not(Op(Less, r, Lit(0)))) == Syms(Op(Less, r, Lit(0))) == Syms(r);
    }
  }

  /** The state with the ranking symbol set. */
  ghost function WithRank(s: State, n: int): State
  {
    (i: Id) => if i == RANK_ID then ConstTable(n) else s(i)
  }

  ghost function RankAt(rank: Option<Expr>, o: State, s: State): int
  {
    if rank.None? then 0 else Eval(rank.value, Now(o, s), map[])
  }

  lemma EvalElsewhere(e: Expr, o: State, s: State, s': State, env: Env)
    requires forall x :: x in Syms(e) && x.kind.Base? ==> s'(x.id) == s(x.id)
    requires StateExpr(e)
    ensures Eval(e, Now(o, s'), env) == Eval(e, Now(o, s), env)
  {
    EvalCoincide(e, Now(o, s'), Now(o, s), env);
  }

  lemma ExInside(c: Clauses, o: State, s: State, t: State, s': State, t': State)
    requires Ex(c, Mk(o, s, t)) && Without(Used(c), RANK_ID)
    requires forall i: Id :: i != RANK_ID ==> s'(i) == s(i) && t'(i) == t(i)
    ensures Ex(c, Mk(o, s', t'))
  {
    hide Used, Holds;
    var w: Val :| SameProgram(Mk(o, s, t), w) && Holds(c, w);
    forall x | x in Used(c) && Program(x)
      ensures w(x) == Mk(o, s', t')(x)
    {
      assert w(x) == Mk(o, s, t)(x);
      assert x.id != RANK_ID;
    }
    ExBy(c, Mk(o, s', t'), w);
  }

  /** The body runs the same whatever the ranking symbol holds. */
  lemma BodyInside(body: Action, o: State, s: State, t: State, s': State, t': State)
    requires Core(body) && Avoids(IntUpdate(body), RANK_ID)
    requires forall i: Id :: i != RANK_ID ==> s'(i) == s(i) && t'(i) == t(i)
    requires s(RANK_ID) == t(RANK_ID) && s'(RANK_ID) == t'(RANK_ID)
    ensures Exec(body, o, s, t) ==> Exec(body, o, s', t')
    ensures Aborts(body, o, s) ==> Aborts(body, o, s')
  {
    hide Ex, Core, Exec, Aborts, Used, IntUpdate;
    var u := IntUpdate(body);
    CompilerCorrect(body);
    if Exec(body, o, s, t) {
      assert Rel(u, o, s, t);
      ExInside(u.tr, o, s, t, s', t');
      assert Rel(u, o, s', t');
    }
    if Aborts(body, o, s) {
      assert Fails(u, o, s);
      var n: State :| Ex(u.pre, Mk(o, s, n));
      ExInside(u.pre, o, s, n, s', n);
      assert Fails(u, o, s');
    }
  }

  /** The body changes modified symbols only. */
  lemma BodyFrame(body: Action, o: State, s: State, t: State)
    requires Core(body) && Exec(body, o, s, t)
    ensures SameOff(IntUpdate(body).mod, s, t)
  {
    hide Ex, Core, Exec, Aborts, IntUpdate;
    CompilerCorrect(body);
    assert Rel(IntUpdate(body), o, s, t);
  }

  // ----- what the expansion means -----

  /** A loop head: the state agrees with that at entry off what the body modifies, and the invariants hold. */
  ghost predicate Head(invs: seq<Expr>, body: Action, o: State, s: State, m: State)
    requires Core(body)
  {
    SameOff(IntUpdate(body).mod, s, m) && AllTrue(invs, o, m)
  }

  /** The rank is negative, the body fails, or after the body an invariant is false or the rank is not lower. */
  ghost predicate BadRound(invs: seq<Expr>, rank: Option<Expr>, body: Action, o: State, m: State)
  {
    || (rank.Some? && RankAt(rank, o, m) < 0)
    || Aborts(body, o, m)
    || exists t: State :: Exec(body, o, m, t) && BadEnd(invs, rank, o, m, t)
  }

  ghost predicate BadEnd(invs: seq<Expr>, rank: Option<Expr>, o: State, m: State, t: State)
  {
    !AllTrue(invs, o, t) || (rank.Some? && RankAt(rank, o, t) >= RankAt(rank, o, m))
  }

  lemma CoreState(f: Expr)
    requires Core(Assume(f))
    ensures StateExpr(f)
  {
  }

  /** The states differ at most in the ranking symbol. */
  ghost predicate AlikeBut(s: State, s': State)
  {
    forall i: Id :: i != RANK_ID ==> s'(i) == s(i)
  }

  lemma TrueAlike(f: Expr, o: State, s: State, s': State)
    requires StateExpr(f) && Without(Syms(f), RANK_ID) && AlikeBut(s, s')
    ensures True(f, o, s') <==> True(f, o, s)
  {
    forall env: Env
      ensures Eval(f, Now(o, s'), env) == Eval(f, Now(o, s), env)
    {
      EvalElsewhere(f, o, s, s', env);
    }
  }

  /** What is true inside the scope of the ranking symbol is true outside. */
  lemma InvariantsAlike(c: Expr, invs: seq<Expr>, rank: Option<Expr>, body: Action, o: State, s: State, s': State)
    requires LoopOk(c, invs, rank, body) && rank.Some? && AlikeBut(s, s')
    ensures AllTrue(invs, o, s') <==> AllTrue(invs, o, s)
    ensures CondHolds(c, o, s') <==> CondHolds(c, o, s)
    ensures RankAt(rank, o, s') == RankAt(rank, o, s)
  {
    hide Core, True, IntUpdate, AlikeBut, Avoids;
    forall f | f in invs
      ensures True(f, o, s') <==> True(f, o, s)
    {
      CoreState(f);
      TrueAlike(f, o, s, s');
    }
    EvalAlike(c, o, s, s');
    EvalAlike(rank.value, o, s, s');
  }

  lemma EvalAlike(e: Expr, o: State, s: State, s': State)
    requires StateExpr(e) && Without(Syms(e), RANK_ID) && AlikeBut(s, s')
    ensures Eval(e, Now(o, s'), map[]) == Eval(e, Now(o, s), map[])
  {
    EvalElsewhere(e, o, s, s', map[]);
  }

  /** The assumption about the ranking symbol, and the checks before and after a round. */
  lemma RankChecks(r: Expr, o: State, s: State)
    requires StateExpr(r) && Closed(r)
    ensures AllTrue(RankAssumes(Some(r)), o, s) <==> s(RANK_ID)([]) == RankAt(Some(r), o, s)
    ensures AllTrue(EntryAsserts(Some(r)), o, s) <==> RankAt(Some(r), o, s) >= 0
    ensures AllTrue(ExitAsserts(Some(r)), o, s) <==> RankAt(Some(r), o, s) < s(RANK_ID)([])
  {
    var v := Now(o, s);
    forall env: Env
      ensures Eval(r, v, env) == RankAt(Some(r), o, s) && Eval(RankNow(), v, env) == s(RANK_ID)([])
    {
      ClosedEval(r, v, env);
      ConstNow(o, s, env);
    }
    hide Eval;
    EqualsTrue(RankNow(), r, o, s);
    LessTrue(r, Lit(0), o, s);
    LessTrue(r, RankNow(), o, s);
    LitEval(0, v);
  }

  lemma ConstNow(o: State, s: State, env: Env)
    ensures Eval(RankNow(), Now(o, s), env) == s(RANK_ID)([])
  {
    assert EvalAll([], Now(o, s), env) == [];
    MkIs(o, s, s, BaseSym(RANK_ID));
  }

  lemma LitEval(n: int, v: Val)
    ensures forall env: Env :: Eval(Lit(n), v, env) == n
  {
  }

  /** Equality and order of expressions whose values do not depend on variables. */
  lemma EqualsTrue(l: Expr, r: Expr, o: State, s: State)
    requires forall env: Env :: Eval(l, Now(o, s), env) == Eval(l, Now(o, s), map[])
    requires forall env: Env :: Eval(r, Now(o, s), env) == Eval(r, Now(o, s), map[])
    ensures True(Op(Equals, l, r), o, s) <==> Eval(l, Now(o, s), map[]) == Eval(r, Now(o, s), map[])
  {
    var v := Now(o, s);
    forall env: Env
      ensures Eval(Op(Equals, l, r), v, env) == Truth(Eval(l, v, env) == Eval(r, v, env))
    {
    }
    assert Eval(Op(Equals, l, r), v, map[]) == Truth(Eval(l, v, map[]) == Eval(r, v, map[]));
  }

  lemma LessTrue(l: Expr, r: Expr, o: State, s: State)
    requires forall env: Env :: Eval(l, Now(o, s), env) == Eval(l, Now(o, s), map[])
    requires forall env: Env :: Eval(r, Now(o, s), env) == Eval(r, Now(o, s), map[])
    ensures True(Op(Less, l, r), o, s) <==> Eval(l, Now(o, s), map[]) < Eval(r, Now(o, s), map[])
    ensures True(Not(Op(Less, l, r)), o, s) <==> Eval(l, Now(o, s), map[]) >= Eval(r, Now(o, s), map[])
  {
    var v := Now(o, s);
    forall env: Env
      ensures Eval(Op(Less, l, r), v, env) == Truth(Eval(l, v, env) < Eval(r, v, env))
      ensures Eval(Not(Op(Less, l, r)), v, env) == Truth(Eval(l, v, env) >= Eval(r, v, env))
    {
    }
    assert Eval(Op(Less, l, r), v, map[]) == Truth(Eval(l, v, map[]) < Eval(r, v, map[]));
    assert Eval(Not(Op(Less, l, r)), v, map[]) == Truth(Eval(l, v, map[]) >= Eval(r, v, map[]));
  }

  lemma RankFree(c: Expr, invs: seq<Expr>, rank: Option<Expr>, body: Action)
    requires LoopOk(c, invs, rank, body)
    ensures rank.Some? ==> StateExpr(rank.value) && Closed(rank.value) && RANK_ID !in IntUpdate(body).mod
    ensures rank.Some? ==> Avoids(IntUpdate(body), RANK_ID)
    ensures Core(body)
  {
  }

  lemma NoneAbove(invs: seq<Expr>, o: State, s: State)
    ensures AllTrue(EntryAsserts(None), o, s) && AllTrue(ExitAsserts(None), o, s) && AllTrue(RankAssumes(None), o, s)
    ensures invs + RankAssumes(None) == invs
  {
  }

  lemma AllTrueBoth(fs: seq<Expr>, gs: seq<Expr>, o: State, s: State)
    ensures AllTrue(fs + gs, o, s) <==> AllTrue(fs, o, s) && AllTrue(gs, o, s)
  {
    hide True;
    if AllTrue(fs + gs, o, s) {
      forall f | f in fs || f in gs ensures True(f, o, s) { assert f in fs + gs; }
    }
  }

  /** The expansion runs exactly to the loop heads at which the condition is false. */
  lemma ExpandRuns(c: Expr, invs: seq<Expr>, rank: Option<Expr>, body: Action, o: State, s: State, t: State)
    requires LoopOk(c, invs, rank, body)
    ensures Core(body)
    ensures Exec(Expand(c, invs, rank, body), o, s, t) <==> Head(invs, body, o, s, t) && !CondHolds(c, o, t)
  {
    RankFree(c, invs, rank, body);
    hide Core, IntUpdate, Exec, ExecSeq, AllTrue, CondHolds, LoopParts, LoopOk, Avoids;
    var modset := IntUpdate(body).mod;
    var parts := LoopParts(c, invs, rank, body, modset);
    if rank.None? {
      Runs.SequenceIs(parts, o, s, t);
      PartsRun(c, invs, rank, body, modset, o, s, t);
      NoneAbove(invs, o, t);
    } else {
      if Exec(Expand(c, invs, rank, body), o, s, t) {
        var s1, t1 := ScopeSplit(parts, o, s, t);
        Runs.SequenceIs(parts, o, s1, t1);
        PartsRun(c, invs, rank, body, modset, o, s1, t1);
        AllTrueBoth(invs, RankAssumes(rank), o, t1);
        InvariantsAlike(c, invs, rank, body, o, t1, t);
        RunOutside(modset, s, s1, t1, t);
      }
      if Head(invs, body, o, s, t) && !CondHolds(c, o, t) {
        HeadLeft(c, invs, rank, body, o, s, t);
      }
    }
  }

  lemma ScopeSplit(parts: seq<Action>, o: State, s: State, t: State) returns (s1: State, t1: State)
    requires Exec(Local([RANK_ID], Sequence(parts)), o, s, t)
    ensures s(RANK_ID) == t(RANK_ID) && AlikeBut(s1, s) && AlikeBut(t1, t) && Exec(Sequence(parts), o, s1, t1)
  {
    hide ExecSeq;
    s1, t1 :| SameOff([RANK_ID], s1, s) && SameOff([RANK_ID], t1, t) && Exec(Sequence(parts), o, s1, t1);
  }

  lemma RunOutside(modset: seq<Id>, s: State, s1: State, t1: State, t: State)
    requires SameOff(modset, s1, t1) && AlikeBut(s1, s) && AlikeBut(t1, t) && s(RANK_ID) == t(RANK_ID)
    ensures SameOff(modset, s, t)
  {
    forall i: Id | i !in modset
      ensures s(i) == t(i)
    {
      if i != RANK_ID { assert s(i) == s1(i) == t1(i) == t(i); }
    }
  }

  lemma WithRankAlike(s: State, n: int)
    ensures AlikeBut(s, WithRank(s, n)) && AlikeBut(WithRank(s, n), s) && WithRank(s, n)(RANK_ID)([]) == n
  {
  }

  /** The scope of the ranking symbol, entered with the rank at a loop head. */
  lemma HeadInside(c: Expr, invs: seq<Expr>, rank: Option<Expr>, body: Action, o: State, s: State, m: State)
    requires LoopOk(c, invs, rank, body) && rank.Some? && Head(invs, body, o, s, m)
    ensures var n := RankAt(rank, o, m);
            && SameOff(IntUpdate(body).mod, WithRank(s, n), WithRank(m, n))
            && AllTrue(invs + RankAssumes(rank), o, WithRank(m, n))
            && (CondHolds(c, o, WithRank(m, n)) <==> CondHolds(c, o, m))
  {
    RankFree(c, invs, rank, body);
    hide Core, IntUpdate, AllTrue, CondHolds, LoopOk, Avoids, RankAt, AlikeBut;
    var n := RankAt(rank, o, m);
    WithRankAlike(m, n);
    InvariantsAlike(c, invs, rank, body, o, m, WithRank(m, n));
    RankChecks(rank.value, o, WithRank(m, n));
    AllTrueBoth(invs, RankAssumes(rank), o, WithRank(m, n));
  }

  lemma HeadLeft(c: Expr, invs: seq<Expr>, rank: Option<Expr>, body: Action, o: State, s: State, t: State)
    requires LoopOk(c, invs, rank, body) && rank.Some? && Head(invs, body, o, s, t) && !CondHolds(c, o, t)
    ensures Exec(Expand(c, invs, rank, body), o, s, t)
  {
    RankFree(c, invs, rank, body);
    hide Core, IntUpdate, Exec, ExecSeq, AllTrue, CondHolds, LoopParts, LoopOk, Avoids;
    var modset, n := IntUpdate(body).mod, RankAt(rank, o, t);
    var parts := LoopParts(c, invs, rank, body, modset);
    HeadInside(c, invs, rank, body, o, s, t);
    PartsRun(c, invs, rank, body, modset, o, WithRank(s, n), WithRank(t, n));
    Runs.SequenceIs(parts, o, WithRank(s, n), WithRank(t, n));
    ScopeJoin(parts, o, s, t, n);
  }

  lemma ScopeJoin(parts: seq<Action>, o: State, s: State, t: State, n: int)
    requires s(RANK_ID) == t(RANK_ID) && Exec(Sequence(parts), o, WithRank(s, n), WithRank(t, n))
    ensures Exec(Local([RANK_ID], Sequence(parts)), o, s, t)
  {
    hide ExecSeq;
    assert SameOff([RANK_ID], WithRank(s, n), s) && SameOff([RANK_ID], WithRank(t, n), t);
  }

  lemma RankKept(body: Action, o: State, m: State, t: State)
    requires Core(body) && RANK_ID !in IntUpdate(body).mod && Exec(body, o, m, t)
    ensures t(RANK_ID) == m(RANK_ID)
  {
    hide Core, IntUpdate, Exec;
    BodyFrame(body, o, m, t);
  }

  lemma BodyMoved(body: Action, o: State, m: State, t: State, m': State, t': State)
    requires Core(body) && Avoids(IntUpdate(body), RANK_ID) && AlikeBut(m, m') && AlikeBut(t, t')
    requires m(RANK_ID) == t(RANK_ID) && m'(RANK_ID) == t'(RANK_ID) && Exec(body, o, m, t)
    ensures Exec(body, o, m', t')
  {
    hide Core, IntUpdate, Exec, Avoids;
    BodyInside(body, o, m, t, m', t');
  }

  /** t with the ranking symbol as in m. */
  ghost function Ranked(t: State, m: State): State
  {
    (i: Id) => if i == RANK_ID then m(RANK_ID) else t(i)
  }

  lemma RankedIs(t: State, m: State)
    ensures AlikeBut(t, Ranked(t, m)) && AlikeBut(Ranked(t, m), t) && Ranked(t, m)(RANK_ID) == m(RANK_ID)
  {
  }

  /** The body runs alike from a state that differs in the ranking symbol. */
  lemma RoundMoved(c: Expr, invs: seq<Expr>, rank: Option<Expr>, body: Action, o: State, m: State, t: State, m': State)
    returns (t': State)
    requires LoopOk(c, invs, rank, body) && rank.Some? && Exec(body, o, m, t) && AlikeBut(m, m')
    ensures Exec(body, o, m', t') && AlikeBut(t, t') && t'(RANK_ID) == m'(RANK_ID) && t(RANK_ID) == m(RANK_ID)
  {
    RankFree(c, invs, rank, body);
    hide Core, IntUpdate, Exec, LoopOk, Avoids, AlikeBut, Ranked;
    RankKept(body, o, m, t);
    t' := Ranked(t, m');
    RankedIs(t, m');
    BodyMoved(body, o, m, t, m', t');
  }

  /** A round goes wrong inside the scope of the ranking symbol exactly if it is a bad one outside. */
  lemma RoundAlike(c: Expr, invs: seq<Expr>, rank: Option<Expr>, body: Action, o: State, m: State, m': State)
    requires LoopOk(c, invs, rank, body) && rank.Some? && AlikeBut(m, m') && AlikeBut(m', m)
    requires m(RANK_ID)([]) == RankAt(rank, o, m)
    ensures RoundFails(invs, rank, body, o, m) <==> BadRound(invs, rank, body, o, m')
  {
    hide LoopOk, RoundFails, BadRound, AlikeBut, RankAt;
    if RoundFails(invs, rank, body, o, m) { RoundOutside(c, invs, rank, body, o, m, m'); }
    if BadRound(invs, rank, body, o, m') { RoundInside(c, invs, rank, body, o, m, m'); }
  }

  lemma RoundOutside(c: Expr, invs: seq<Expr>, rank: Option<Expr>, body: Action, o: State, m: State, m': State)
    requires LoopOk(c, invs, rank, body) && rank.Some? && AlikeBut(m, m') && AlikeBut(m', m)
    requires m(RANK_ID)([]) == RankAt(rank, o, m) && RoundFails(invs, rank, body, o, m)
    ensures BadRound(invs, rank, body, o, m')
  {
    RankFree(c, invs, rank, body);
    hide Core, IntUpdate, Exec, Aborts, LoopOk, Avoids, RankAt, AllTrue, AlikeBut, BadEnd;
    if !AllTrue(EntryAsserts(rank), o, m) {
      InvariantsAlike(c, invs, rank, body, o, m', m);
      RankChecks(rank.value, o, m);
    } else if Aborts(body, o, m) {
      BodyAlike(body, o, m, m');
    } else {
      var t: State :| Exec(body, o, m, t) && !(AllTrue(ExitAsserts(rank), o, t) && AllTrue(invs, o, t));
      var t' := EndOutside(c, invs, rank, body, o, m, t, m');
    }
  }

  lemma RoundInside(c: Expr, invs: seq<Expr>, rank: Option<Expr>, body: Action, o: State, m: State, m': State)
    requires LoopOk(c, invs, rank, body) && rank.Some? && AlikeBut(m, m') && AlikeBut(m', m)
    requires m(RANK_ID)([]) == RankAt(rank, o, m) && BadRound(invs, rank, body, o, m')
    ensures RoundFails(invs, rank, body, o, m)
  {
    RankFree(c, invs, rank, body);
    hide Core, IntUpdate, Exec, Aborts, LoopOk, Avoids, RankAt, AllTrue, AlikeBut, BadEnd;
    if RankAt(rank, o, m') < 0 {
      InvariantsAlike(c, invs, rank, body, o, m', m);
      RankChecks(rank.value, o, m);
    } else if Aborts(body, o, m') {
      BodyAlike(body, o, m', m);
    } else {
      var t': State :| Exec(body, o, m', t') && BadEnd(invs, rank, o, m', t');
      var t := EndInside(c, invs, rank, body, o, m, m', t');
    }
  }

  lemma EndOutside(c: Expr, invs: seq<Expr>, rank: Option<Expr>, body: Action, o: State, m: State, t: State, m': State)
    returns (t': State)
    requires LoopOk(c, invs, rank, body) && rank.Some? && AlikeBut(m, m') && AlikeBut(m', m)
    requires m(RANK_ID)([]) == RankAt(rank, o, m)
    requires Exec(body, o, m, t) && !(AllTrue(ExitAsserts(rank), o, t) && AllTrue(invs, o, t))
    ensures Exec(body, o, m', t') && BadEnd(invs, rank, o, m', t')
  {
    hide Core, IntUpdate, Exec, LoopOk, Avoids, RankAt, AllTrue, AlikeBut;
    t' := RoundMoved(c, invs, rank, body, o, m, t, m');
    EndAlike(c, invs, rank, body, o, m, t, t');
    InvariantsAlike(c, invs, rank, body, o, m', m);
  }

  lemma EndInside(c: Expr, invs: seq<Expr>, rank: Option<Expr>, body: Action, o: State, m: State, m': State, t': State)
    returns (t: State)
    requires LoopOk(c, invs, rank, body) && rank.Some? && AlikeBut(m, m') && AlikeBut(m', m)
    requires m(RANK_ID)([]) == RankAt(rank, o, m)
    requires Exec(body, o, m', t') && BadEnd(invs, rank, o, m', t')
    ensures Exec(body, o, m, t) && !(AllTrue(ExitAsserts(rank), o, t) && AllTrue(invs, o, t))
  {
    hide Core, IntUpdate, Exec, LoopOk, Avoids, RankAt, AllTrue, AlikeBut;
    t := RoundMoved(c, invs, rank, body, o, m', t', m);
    AlikeBack(t', t);
    EndAlike(c, invs, rank, body, o, m, t, t');
    InvariantsAlike(c, invs, rank, body, o, m', m);
  }

  lemma AlikeBack(s: State, t: State)
    requires AlikeBut(s, t)
    ensures AlikeBut(t, s)
  {
  }

  lemma BodyAlike(body: Action, o: State, m: State, m': State)
    requires Core(body) && Avoids(IntUpdate(body), RANK_ID) && AlikeBut(m, m')
    ensures Aborts(body, o, m) ==> Aborts(body, o, m')
  {
    hide Core, IntUpdate, Aborts, Avoids;
    BodyInside(body, o, m, m, m', m');
  }

  lemma EndAlike(c: Expr, invs: seq<Expr>, rank: Option<Expr>, body: Action, o: State, m: State, t: State, t': State)
    requires LoopOk(c, invs, rank, body) && rank.Some? && AlikeBut(t, t') && t(RANK_ID) == m(RANK_ID)
    requires m(RANK_ID)([]) == RankAt(rank, o, m)
    ensures !(AllTrue(ExitAsserts(rank), o, t) && AllTrue(invs, o, t)) <==> BadEnd(invs, rank, o, m, t')
  {
    RankFree(c, invs, rank, body);
    hide Core, IntUpdate, LoopOk, Avoids, RankAt, AllTrue, AlikeBut;
    InvariantsAlike(c, invs, rank, body, o, t, t');
    RankChecks(rank.value, o, t);
  }

  /** Without a rank, only the body and the invariants are checked. */
  lemma RoundPlain(invs: seq<Expr>, body: Action, o: State, m: State)
    ensures RoundFails(invs, None, body, o, m) <==> BadRound(invs, None, body, o, m)
  {
    hide Exec, Aborts, AllTrue;
    forall t: State
      ensures AllTrue(EntryAsserts(None), o, t) && AllTrue(ExitAsserts(None), o, t)
    {
      NoneAbove(invs, o, t);
    }
    if t: State :| Exec(body, o, m, t) && !(AllTrue(ExitAsserts(None), o, t) && AllTrue(invs, o, t)) {
      assert BadEnd(invs, None, o, m, t);
    }
    if t: State :| Exec(body, o, m, t) && BadEnd(invs, None, o, m, t) {
      assert !(AllTrue(ExitAsserts(None), o, t) && AllTrue(invs, o, t));
    }
  }

  /** Some loop head is entered with the condition true, and the round from there is a bad one. */
  ghost predicate BadHead(c: Expr, invs: seq<Expr>, rank: Option<Expr>, body: Action, o: State, s: State, m: State)
    requires Core(body)
  {
    Head(invs, body, o, s, m) && CondHolds(c, o, m) && BadRound(invs, rank, body, o, m)
  }

  /** The expansion fails exactly if an invariant is false at entry or the round from some loop head is a bad one. */
  lemma ExpandAborts(c: Expr, invs: seq<Expr>, rank: Option<Expr>, body: Action, o: State, s: State)
    requires LoopOk(c, invs, rank, body)
    ensures Core(body)
    ensures Aborts(Expand(c, invs, rank, body), o, s) <==>
            !AllTrue(invs, o, s) || exists m: State :: BadHead(c, invs, rank, body, o, s, m)
  {
    RankFree(c, invs, rank, body);
    hide Core, IntUpdate, AllTrue, CondHolds, LoopParts, LoopOk, Avoids, BadHead, Aborts, AbortsSeq, TestFails;
    if rank.None? {
      PlainAborts(c, invs, body, o, s);
    } else {
      if Aborts(Expand(c, invs, rank, body), o, s) { AbortOutside(c, invs, rank, body, o, s); }
      if !AllTrue(invs, o, s) { EntryAborts(c, invs, rank, body, o, s); }
      if m: State :| BadHead(c, invs, rank, body, o, s, m) { HeadAborts(c, invs, rank, body, o, s, m); }
    }
  }

  lemma PlainAborts(c: Expr, invs: seq<Expr>, body: Action, o: State, s: State)
    requires Core(body)
    ensures Aborts(Expand(c, invs, None, body), o, s) <==>
            !AllTrue(invs, o, s) || exists m: State :: BadHead(c, invs, None, body, o, s, m)
  {
    hide Core, IntUpdate, AllTrue, CondHolds, LoopParts, Aborts, AbortsSeq, RoundFails, BadRound;
    var modset := IntUpdate(body).mod;
    var parts := LoopParts(c, invs, None, body, modset);
    Runs.SequenceIs(parts, o, s, s);
    PartsAbort(c, invs, None, body, modset, o, s);
    NoneAbove(invs, o, s);
    if m: State :| TestFails(c, invs, None, body, modset, o, s, m) {
      RoundPlain(invs, body, o, m);
      assert BadHead(c, invs, None, body, o, s, m);
    }
    if m: State :| BadHead(c, invs, None, body, o, s, m) {
      RoundPlain(invs, body, o, m);
      assert TestFails(c, invs, None, body, modset, o, s, m);
    }
  }

  lemma AbortOutside(c: Expr, invs: seq<Expr>, rank: Option<Expr>, body: Action, o: State, s: State)
    requires LoopOk(c, invs, rank, body) && rank.Some? && Aborts(Expand(c, invs, rank, body), o, s)
    ensures Core(body) && (!AllTrue(invs, o, s) || exists m: State :: BadHead(c, invs, rank, body, o, s, m))
  {
    RankFree(c, invs, rank, body);
    hide Core, IntUpdate, AllTrue, CondHolds, LoopParts, LoopOk, Avoids, AbortsSeq, TestFails, BadHead, AlikeBut,
      Aborts;
    var modset := IntUpdate(body).mod;
    var parts := LoopParts(c, invs, rank, body, modset);
    var s1 := AbortScope(parts, o, s);
    Runs.SequenceIs(parts, o, s1, s1);
    PartsAbort(c, invs, rank, body, modset, o, s1);
    InvariantsAlike(c, invs, rank, body, o, s1, s);
    if AllTrue(invs, o, s) {
      var m1: State :| TestFails(c, invs, rank, body, modset, o, s1, m1);
      var m := TestOutside(c, invs, rank, body, o, s, s1, m1);
    }
  }

  lemma TestOutside(c: Expr, invs: seq<Expr>, rank: Option<Expr>, body: Action, o: State, s: State, s1: State,
                    m1: State)
    returns (m: State)
    requires LoopOk(c, invs, rank, body) && rank.Some? && AlikeBut(s1, s)
    requires Core(body) && TestFails(c, invs, rank, body, IntUpdate(body).mod, o, s1, m1)
    ensures BadHead(c, invs, rank, body, o, s, m)
  {
    RankFree(c, invs, rank, body);
    hide Core, IntUpdate, AllTrue, CondHolds, LoopOk, Avoids, RoundFails, BadRound, RankAt, Ranked, AlikeBut, SameOff;
    m := Ranked(m1, s);
    RankedIs(m1, s);
    RunOutside(IntUpdate(body).mod, s, s1, m1, m);
    AllTrueBoth(invs, RankAssumes(rank), o, m1);
    RankChecks(rank.value, o, m1);
    InvariantsAlike(c, invs, rank, body, o, m1, m);
    RoundAlike(c, invs, rank, body, o, m1, m);
  }

  lemma AbortScope(parts: seq<Action>, o: State, s: State) returns (s1: State)
    requires Aborts(Local([RANK_ID], Sequence(parts)), o, s)
    ensures AlikeBut(s1, s) && AlikeBut(s, s1) && Aborts(Sequence(parts), o, s1)
  {
    hide AbortsSeq;
    s1 :| SameOff([RANK_ID], s1, s) && Aborts(Sequence(parts), o, s1);
  }

  lemma ScopeAborts(parts: seq<Action>, o: State, s: State, n: int)
    requires AbortsSeq(parts, o, WithRank(s, n))
    ensures Aborts(Local([RANK_ID], Sequence(parts)), o, s)
  {
    assert SameOff([RANK_ID], WithRank(s, n), s);
    assert Aborts(Sequence(parts), o, WithRank(s, n));
  }

  lemma EntryAborts(c: Expr, invs: seq<Expr>, rank: Option<Expr>, body: Action, o: State, s: State)
    requires LoopOk(c, invs, rank, body) && rank.Some? && !AllTrue(invs, o, s)
    ensures Aborts(Expand(c, invs, rank, body), o, s)
  {
    RankFree(c, invs, rank, body);
    hide Core, IntUpdate, AllTrue, CondHolds, LoopParts, LoopOk, Avoids, Aborts, AbortsSeq;
    var modset := IntUpdate(body).mod;
    WithRankAlike(s, 0);
    InvariantsAlike(c, invs, rank, body, o, s, WithRank(s, 0));
    PartsAbort(c, invs, rank, body, modset, o, WithRank(s, 0));
    ScopeAborts(LoopParts(c, invs, rank, body, modset), o, s, 0);
  }

  lemma HeadAborts(c: Expr, invs: seq<Expr>, rank: Option<Expr>, body: Action, o: State, s: State, m: State)
    requires LoopOk(c, invs, rank, body) && rank.Some? && BadHead(c, invs, rank, body, o, s, m)
    ensures Aborts(Expand(c, invs, rank, body), o, s)
  {
    RankFree(c, invs, rank, body);
    hide Core, IntUpdate, AllTrue, CondHolds, LoopParts, LoopOk, Avoids, Aborts, AbortsSeq, RoundFails, BadRound,
      RankAt, Head, AlikeBut;
    var modset, n := IntUpdate(body).mod, RankAt(rank, o, m);
    HeadInside(c, invs, rank, body, o, s, m);
    WithRankAlike(m, n);
    InvariantsAlike(c, invs, rank, body, o, m, WithRank(m, n));
    RoundAlike(c, invs, rank, body, o, WithRank(m, n), m);
    assert TestFails(c, invs, rank, body, modset, o, WithRank(s, n), WithRank(m, n));
    PartsAbort(c, invs, rank, body, modset, o, WithRank(s, n));
    ScopeAborts(LoopParts(c, invs, rank, body, modset), o, s, n);
  }

  // ----- soundness of the expansion -----

  /** Wherever the replacement cannot abort, the original cannot either, and its runs are covered. */
  ghost predicate Covers(original: Action, lowered: Action)
  {
    forall o: State, s: State :: !Aborts(lowered, o, s) ==>
      !Aborts(original, o, s) && forall t: State :: Exec(original, o, s, t) ==> Exec(lowered, o, s, t)
  }

  /** If the expansion cannot abort, then at every loop head with the condition true the rank is not negative, the body
      cannot abort, and a round leads to a loop head with a lower rank. */
  lemma HeadSafe(c: Expr, invs: seq<Expr>, rank: Option<Expr>, body: Action, o: State, s: State, m: State)
    requires LoopOk(c, invs, rank, body) && !Aborts(Expand(c, invs, rank, body), o, s)
    requires Head(invs, body, o, s, m) && CondHolds(c, o, m)
    ensures !Aborts(body, o, m) && (rank.Some? ==> RankAt(rank, o, m) >= 0)
    ensures forall t: State :: Exec(body, o, m, t) ==>
              Head(invs, body, o, s, t) && (rank.Some? ==> RankAt(rank, o, t) < RankAt(rank, o, m))
  {
    RankFree(c, invs, rank, body);
    hide Core, IntUpdate, Exec, Aborts, AllTrue, CondHolds, LoopOk, Expand, RankAt, Avoids;
    ExpandAborts(c, invs, rank, body, o, s);
    assert !BadHead(c, invs, rank, body, o, s, m);
    forall t: State | Exec(body, o, m, t)
      ensures Head(invs, body, o, s, t) && (rank.Some? ==> RankAt(rank, o, t) < RankAt(rank, o, m))
    {
      BodyFrame(body, o, m, t);
      assert !BadEnd(invs, rank, o, m, t);
    }
  }

  // ----- the loop theorem -----

  /** Every state that the real loop reaches at its head is a loop head, and each round lowered the rank. */
  lemma {:induction false} HeadsOnly(c: Expr, invs: seq<Expr>, rank: Option<Expr>, original: Action, body: Action,
                                     n: nat, o: State, s: State, m: State)
    requires LoopOk(c, invs, rank, body) && Covers(original, body)
    requires !Aborts(Expand(c, invs, rank, body), o, s)
    requires Iterates(c, original, n, o, s, m)
    ensures Head(invs, body, o, s, m)
    ensures rank.Some? ==> RankAt(rank, o, m) <= RankAt(rank, o, s) - n
  {
    hide Core, IntUpdate, Aborts, CondHolds, Expand, Exec, AllTrue;
    if n == 0 {
      ExpandAborts(c, invs, rank, body, o, s);
      AllTrueSame(invs, o, s, m);
      if rank.Some? { EvalElsewhere(rank.value, o, s, m, map[]); }
    } else {
      var h: State :| Iterates(c, original, n - 1, o, s, h) && CondHolds(c, o, h) && Exec(original, o, h, m);
      HeadsOnly(c, invs, rank, original, body, n - 1, o, s, h);
      HeadSafe(c, invs, rank, body, o, s, h);
    }
  }

  /** Soundness of invariants: if the expansion cannot abort from s, then the real loop cannot abort from s
      either, at any iteration; every loop head satisfies the invariants; every exit state is a result of
      the expansion; and with a rank there are at most rank + 1 iterations. */
  lemma LoopSound(c: Expr, invs: seq<Expr>, rank: Option<Expr>, original: Action, body: Action, o: State, s: State)
    requires LoopOk(c, invs, rank, body) && Covers(original, body)
    requires !Aborts(Expand(c, invs, rank, body), o, s)
    ensures !Aborts(While(c, invs, rank, original), o, s)
    ensures forall n: nat, m: State :: Iterates(c, original, n, o, s, m) ==> AllTrue(invs, o, m)
    ensures forall t: State :: Exec(While(c, invs, rank, original), o, s, t) ==>
              Exec(Expand(c, invs, rank, body), o, s, t)
    ensures rank.Some? ==> forall n: nat, m: State :: n > 0 && Iterates(c, original, n, o, s, m) ==>
              n <= RankAt(rank, o, s) + 1
  {
    LoopCore(c, invs, rank, body);
    hide Core, IntUpdate, CondHolds, Expand, True, LoopOk, Covers, Exec, Aborts, Iterates;
    LoopNeverAborts(c, invs, rank, original, body, o, s);
    forall n: nat, m: State | Iterates(c, original, n, o, s, m)
      ensures AllTrue(invs, o, m) && (rank.Some? && n > 0 ==> n <= RankAt(rank, o, s) + 1)
    {
      RoundSafe(c, invs, rank, original, body, n, o, s, m);
    }
    forall t: State | Exec(While(c, invs, rank, original), o, s, t)
      ensures Exec(Expand(c, invs, rank, body), o, s, t)
    {
      var n := WhileRun(While(c, invs, rank, original), o, s, t);
      RoundSafe(c, invs, rank, original, body, n, o, s, t);
    }
  }

  lemma LoopCore(c: Expr, invs: seq<Expr>, rank: Option<Expr>, body: Action)
    requires LoopOk(c, invs, rank, body)
    ensures Core(body)
  {
  }

  lemma LoopNeverAborts(c: Expr, invs: seq<Expr>, rank: Option<Expr>, original: Action, body: Action, o: State,
                        s: State)
    requires LoopOk(c, invs, rank, body) && Covers(original, body)
    requires !Aborts(Expand(c, invs, rank, body), o, s)
    ensures !Aborts(While(c, invs, rank, original), o, s)
  {
    hide Core, IntUpdate, CondHolds, Expand, True, LoopOk, Covers, Exec, Iterates;
    forall n: nat, m: State | Iterates(c, original, n, o, s, m) && CondHolds(c, o, m)
      ensures !Aborts(original, o, m)
    {
      RoundSafe(c, invs, rank, original, body, n, o, s, m);
    }
  }

  lemma RoundSafe(c: Expr, invs: seq<Expr>, rank: Option<Expr>, original: Action, body: Action,
                  n: nat, o: State, s: State, m: State)
    requires LoopOk(c, invs, rank, body) && Covers(original, body)
    requires !Aborts(Expand(c, invs, rank, body), o, s) && Iterates(c, original, n, o, s, m)
    ensures AllTrue(invs, o, m) && (CondHolds(c, o, m) ==> !Aborts(original, o, m))
    ensures !CondHolds(c, o, m) ==> Exec(Expand(c, invs, rank, body), o, s, m)
    ensures n > 0 && rank.Some? ==> n <= RankAt(rank, o, s) + 1
  {
    hide Core, IntUpdate, CondHolds, Expand, True, Exec, Iterates, Aborts;
    HeadsOnly(c, invs, rank, original, body, n, o, s, m);
    if CondHolds(c, o, m) {
      HeadSafe(c, invs, rank, body, o, s, m);
    } else {
      ExpandRuns(c, invs, rank, body, o, s, m);
    }
    if n > 0 && rank.Some? {
      var h := LastRound(c, original, n, o, s, m);
      HeadsOnly(c, invs, rank, original, body, n - 1, o, s, h);
      HeadSafe(c, invs, rank, body, o, s, h);
    }
  }
}
