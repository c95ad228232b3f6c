/**
 Bounded unrolling of loops, and how it approximates them.
 */
module Unrolling {
  import opened Options
  import opened Names
  import opened Logic
  import opened ClauseOps
  import opened Updates
  import opened Hiding
  import opened Substitution
  import opened Actions
  import opened Runs
  import opened Equivariance
  import opened Refinement
  import opened Transforms
  import opened Atoms
  import opened Compiler
  import opened Loops
  import opened Limits

  const SKIP := Sequence([])

  /** At most n rounds of the body; a run that would need more is cut off. */
  function Unrolled(c: Expr, body: Action, n: nat): Action
  {
    If(c, if n == 0 then Assume(Lit(0)) else Sequence([body, Unrolled(c, body, n - 1)]), SKIP)
  }

  /** The unrolled loop; none when no bound is known or the bound is too large. */
  method UnrollWhile(c: Expr, body: Action, card: int) returns (r: Option<Action>)
    ensures r == if 0 <= card <= 100 then Some(Unrolled(c, body, card)) else None
  {
    if card < 0 || card > 100 {
      return None;
    }
    var res := If(c, Assume(Lit(0)), SKIP);
    for i := 0 to card
      invariant res == Unrolled(c, body, i)
    {
      var bodyThenRest := Sequence([body, res]);
      res := If(c, bodyThenRest, SKIP);
    }
    return Some(res);
  }

  /** Unrolls every loop of the action, innermost first; callees are left as they are. */
  function UnrollLoops(a: Action, n: nat): Action
    decreases a, 1
  {
    match a
    case Sequence(es) => Sequence(UnrollAll(es, n))
    case Choice(bs) => Choice(UnrollAll(bs, n))
    case If(c, thn, els) => If(c, UnrollLoops(thn, n), UnrollLoops(els, n))
    case Local(xs, body) => Local(xs, UnrollLoops(body, n))
    case BindOldsAction(inner) => BindOldsAction(UnrollLoops(inner, n))
    case While(c, _, _, body) => Unrolled(c, UnrollLoops(body, n), n)
    case IfSome(some, thn, els) => IfSome(some, UnrollLoops(thn, n), UnrollLoops(els, n))
    case _ => a
  }

  function UnrollAll(es: seq<Action>, n: nat): (r: seq<Action>)
    ensures |r| == |es| && forall k :: 0 <= k < |es| ==> r[k] == UnrollLoops(es[k], n)
    decreases es, 0
  {
    if es == [] then [] else UnrollAll(es[..|es| - 1], n) + [UnrollLoops(es[|es| - 1], n)]
  }

  predicate HasLoop(a: Action)
  {
    match a
    case Sequence(es) => exists e :: e in es && HasLoop(e)
    case Choice(bs) => exists b :: b in bs && HasLoop(b)
    case If(_, thn, els) => HasLoop(thn) || HasLoop(els)
    case Local(_, body) => HasLoop(body)
    case BindOldsAction(inner) => HasLoop(inner)
    case While(_, _, _, _) => true
    case IfSome(_, thn, els) => HasLoop(thn) || HasLoop(els)
    case _ => false
  }

  /** The action with its loops unrolled, or the action itself if a loop has no usable bound. */
  function UnrollAction(a: Action, n: int): Action
  {
    if HasLoop(a) && !(0 <= n <= 100) then a else UnrollLoops(a, if n < 0 then 0 else n)
  }

  // ----- runs of an unrolled loop -----

  lemma SkipIs(o: State, s: State, t: State)
    ensures Exec(SKIP, o, s, t) <==> Same(s, t)
    ensures !Aborts(SKIP, o, s)
  {
  }

  /** A round at the end is a round at the front. */
  lemma {:induction false} ToFront(c: Expr, b: Action, n: nat, o: State, s: State, t: State) returns (m: State)
    requires Iterates(c, b, n + 1, o, s, t)
    ensures CondHolds(c, o, s) && Exec(b, o, s, m) && Iterates(c, b, n, o, m, t)
    decreases n
  {
    hide Exec, CondHolds, Iterates;
    var h := LastRound(c, b, n + 1, o, s, t);
    if n == 0 {
      NoRound(c, b, o, s, h);
      CondUnmoved(c, o, s, h);
      ExecSame(b, o, h, t, o, s, t);
      NoRound(c, b, o, t, t);
      m := t;
    } else {
      m := ToFront(c, b, n - 1, o, s, h);
      OneMore(c, b, n, o, m, h, t);
    }
  }

  lemma {:induction false} ToBack(c: Expr, b: Action, n: nat, o: State, s: State, m: State, t: State)
    requires CondHolds(c, o, s) && Exec(b, o, s, m) && Iterates(c, b, n, o, m, t)
    ensures Iterates(c, b, n + 1, o, s, t)
    decreases n
  {
    hide Exec, CondHolds, Iterates;
    if n == 0 {
      NoRound(c, b, o, m, t);
      ExecSame(b, o, s, m, o, s, t);
      NoRound(c, b, o, s, s);
      OneMore(c, b, 1, o, s, s, t);
    } else {
      var h := LastRound(c, b, n, o, m, t);
      ToBack(c, b, n - 1, o, s, m, h);
      OneMore(c, b, n + 1, o, s, h, t);
    }
  }

  lemma NoRound(c: Expr, b: Action, o: State, s: State, t: State)
    ensures Iterates(c, b, 0, o, s, t) <==> Same(s, t)
  {
  }

  /** At most n rounds, after which the condition is false. */
  ghost predicate Rounds(c: Expr, b: Action, n: nat, o: State, s: State, t: State)
  {
    !CondHolds(c, o, t) && exists k: nat :: k <= n && Iterates(c, b, k, o, s, t)
  }

  /** The body fails in one of the first n rounds. */
  ghost predicate FailsWithin(c: Expr, b: Action, n: nat, o: State, s: State)
  {
    exists k: nat, m: State :: k < n && Iterates(c, b, k, o, s, m) && CondHolds(c, o, m) && Aborts(b, o, m)
  }

  lemma NoneLeft(c: Expr, b: Action, o: State, s: State, t: State)
    ensures Rounds(c, b, 0, o, s, t) <==> !CondHolds(c, o, s) && Same(s, t)
    ensures !FailsWithin(c, b, 0, o, s)
  {
    hide CondHolds;
    NoRound(c, b, o, s, t);
    if Same(s, t) { CondUnmoved(c, o, s, t); }
  }

  lemma OneLess(c: Expr, b: Action, n: nat, o: State, s: State, t: State)
    ensures Rounds(c, b, n + 1, o, s, t) <==>
            if CondHolds(c, o, s) then exists m: State :: Exec(b, o, s, m) && Rounds(c, b, n, o, m, t) else Same(s, t)
  {
    hide CondHolds, Exec, Iterates;
    NoRound(c, b, o, s, t);
    if Same(s, t) { CondUnmoved(c, o, s, t); }
    forall k: nat | k <= n + 1 && Iterates(c, b, k, o, s, t) && !CondHolds(c, o, t)
      ensures if CondHolds(c, o, s) then exists m: State :: Exec(b, o, s, m) && Rounds(c, b, n, o, m, t) else Same(s, t)
    {
      if k > 0 {
        var m := ToFront(c, b, k - 1, o, s, t);
        assert Rounds(c, b, n, o, m, t);
      }
    }
    forall m: State | CondHolds(c, o, s) && Exec(b, o, s, m) && Rounds(c, b, n, o, m, t)
      ensures Rounds(c, b, n + 1, o, s, t)
    {
      var k: nat :| k <= n && Iterates(c, b, k, o, m, t);
      ToBack(c, b, k, o, s, m, t);
      assert Iterates(c, b, k + 1, o, s, t);
    }
  }

  lemma OneLessFails(c: Expr, b: Action, n: nat, o: State, s: State)
    ensures FailsWithin(c, b, n + 1, o, s) <==>
            CondHolds(c, o, s) && (Aborts(b, o, s) || exists m: State :: Exec(b, o, s, m) && FailsWithin(c, b, n, o, m))
  {
    hide CondHolds, Exec, Aborts, Iterates, FailsWithin, Same;
    if FailsWithin(c, b, n + 1, o, s) { FailsFirst(c, b, n, o, s); }
    if CondHolds(c, o, s) && Aborts(b, o, s) { FailsAtOnce(c, b, n, o, s); }
    forall m: State | CondHolds(c, o, s) && Exec(b, o, s, m) && FailsWithin(c, b, n, o, m)
      ensures FailsWithin(c, b, n + 1, o, s)
    {
      FailsLater(c, b, n, o, s, m);
    }
  }

  lemma FailsFirst(c: Expr, b: Action, n: nat, o: State, s: State)
    requires FailsWithin(c, b, n + 1, o, s)
    ensures CondHolds(c, o, s) && (Aborts(b, o, s) || exists m: State :: Exec(b, o, s, m) && FailsWithin(c, b, n, o, m))
  {
    hide CondHolds, Exec, Aborts, Iterates;
    var k: nat, h: State :| k < n + 1 && Iterates(c, b, k, o, s, h) && CondHolds(c, o, h) && Aborts(b, o, h);
    if k == 0 {
      NoRound(c, b, o, s, h);
      CondUnmoved(c, o, s, h);
      AbortsSame(b, o, h, o, s);
    } else {
      var m := ToFront(c, b, k - 1, o, s, h);
      assert FailsWithin(c, b, n, o, m);
    }
  }

  lemma FailsAtOnce(c: Expr, b: Action, n: nat, o: State, s: State)
    requires CondHolds(c, o, s) && Aborts(b, o, s)
    ensures FailsWithin(c, b, n + 1, o, s)
  {
    hide CondHolds, Aborts, Iterates;
    NoRound(c, b, o, s, s);
  }

  lemma FailsLater(c: Expr, b: Action, n: nat, o: State, s: State, m: State)
    requires CondHolds(c, o, s) && Exec(b, o, s, m) && FailsWithin(c, b, n, o, m)
    ensures FailsWithin(c, b, n + 1, o, s)
  {
    hide CondHolds, Exec, Aborts, Iterates;
    var k: nat, h: State :| k < n && Iterates(c, b, k, o, m, h) && CondHolds(c, o, h) && Aborts(b, o, h);
    ToBack(c, b, k, o, s, m, h);
    assert Iterates(c, b, k + 1, o, s, h);
  }

  /** The unrolled loop has exactly the runs with at most n rounds, and fails exactly where the body fails
      in one of the first n rounds. */
  lemma {:induction false} UnrolledExact(c: Expr, b: Action, n: nat, o: State, s: State, t: State)
    ensures Exec(Unrolled(c, b, n), o, s, t) <==> Rounds(c, b, n, o, s, t)
    ensures Aborts(Unrolled(c, b, n), o, s) <==> FailsWithin(c, b, n, o, s)
    decreases n
  {
    hide CondHolds, Exec, Aborts, Rounds, FailsWithin;
    SkipIs(o, s, t);
    if n == 0 {
      IfIs(c, Assume(Lit(0)), SKIP, o, s, t);
      FalseIs(o, s, t);
      NoneLeft(c, b, o, s, t);
    } else {
      var rest := Unrolled(c, b, n - 1);
      IfIs(c, Sequence([b, rest]), SKIP, o, s, t);
      PairIs(b, rest, o, s, t);
      OneLess(c, b, n - 1, o, s, t);
      OneLessFails(c, b, n - 1, o, s);
      forall m: State
        ensures Exec(rest, o, m, t) <==> Rounds(c, b, n - 1, o, m, t)
        ensures Aborts(rest, o, m) <==> FailsWithin(c, b, n - 1, o, m)
      {
        UnrolledExact(c, b, n - 1, o, m, t);
      }
    }
  }

  /** More rounds, more runs; and only runs of the loop. */
  lemma UnrolledMonotone(c: Expr, invs: seq<Expr>, rank: Option<Expr>, b: Action, n: nat, n': nat)
    requires n <= n'
    ensures Below(Unrolled(c, b, n), Unrolled(c, b, n')) && Below(Unrolled(c, b, n), While(c, invs, rank, b))
  {
    hide CondHolds, Exec, Aborts, Unrolled, Iterates, Below;
    var u, u', w := Unrolled(c, b, n), Unrolled(c, b, n'), While(c, invs, rank, b);
    forall o: State, s: State, t: State | Exec(u, o, s, t)
      ensures Exec(u', o, s, t) && Exec(w, o, s, t)
    {
      UnrolledExact(c, b, n, o, s, t);
      UnrolledExact(c, b, n', o, s, t);
      WhileIs(c, invs, rank, b, o, s, t);
    }
    forall o: State, s: State | Aborts(u, o, s)
      ensures Aborts(u', o, s) && Aborts(w, o, s)
    {
      UnrolledExact(c, b, n, o, s, s);
      UnrolledExact(c, b, n', o, s, s);
      WhileIs(c, invs, rank, b, o, s, s);
    }
    BelowIs(u, u');
    BelowIs(u, w);
  }

  lemma WhileIs(c: Expr, invs: seq<Expr>, rank: Option<Expr>, b: Action, o: State, s: State, t: State)
    ensures Exec(While(c, invs, rank, b), o, s, t) <==> exists n: nat :: Rounds(c, b, n, o, s, t)
    ensures Aborts(While(c, invs, rank, b), o, s) <==> exists n: nat :: FailsWithin(c, b, n, o, s)
  {
    hide CondHolds;
    var w := While(c, invs, rank, b);
    if Exec(w, o, s, t) {
      var n := WhileRun(w, o, s, t);
      assert Rounds(c, b, n, o, s, t);
    }
    if Aborts(w, o, s) {
      var n: nat, m: State :| Iterates(c, b, n, o, s, m) && CondHolds(c, o, m) && Aborts(b, o, m);
      assert FailsWithin(c, b, n + 1, o, s);
    }
  }

  /** If the invariant expansion cannot fail, the loop lies between its unrollings and the expansion. */
  lemma UnrolledExpanded(c: Expr, invs: seq<Expr>, rank: Option<Expr>, b: Action, lowered: Action, n: nat, o: State,
                         s: State)
    requires LoopOk(c, invs, rank, lowered) && Covers(b, lowered)
    requires !Aborts(Expand(c, invs, rank, lowered), o, s)
    ensures !Aborts(Unrolled(c, b, n), o, s)
    ensures forall t: State :: Exec(Unrolled(c, b, n), o, s, t) ==>
              Exec(While(c, invs, rank, b), o, s, t) && Exec(Expand(c, invs, rank, lowered), o, s, t)
  {
    hide Exec, Aborts, LoopOk, Covers, Expand;
    LoopSound(c, invs, rank, b, lowered, o, s);
    UnrolledMonotone(c, invs, rank, b, n, n);
    forall t: State
      ensures Exec(Unrolled(c, b, n), o, s, t) ==> Exec(While(c, invs, rank, b), o, s, t)
    {
      BelowAt(Unrolled(c, b, n), While(c, invs, rank, b), o, s, t);
    }
    BelowAt(Unrolled(c, b, n), While(c, invs, rank, b), o, s, s);
  }

  // ----- unrolling whole actions -----

  lemma UnrolledBelow(c: Expr, a: Action, b: Action, n: nat)
    requires Below(a, b)
    ensures Below(Unrolled(c, a, n), Unrolled(c, b, n))
  {
    hide CondHolds, Exec, Aborts, Below, Unrolled, Iterates;
    var p, q := Unrolled(c, a, n), Unrolled(c, b, n);
    forall o: State, s: State, t: State | Exec(p, o, s, t)
      ensures Exec(q, o, s, t)
    {
      UnrolledExact(c, a, n, o, s, t);
      UnrolledExact(c, b, n, o, s, t);
      RoundsBelow(c, a, b, n, o, s, t);
    }
    forall o: State, s: State | Aborts(p, o, s)
      ensures Aborts(q, o, s)
    {
      UnrolledExact(c, a, n, o, s, s);
      UnrolledExact(c, b, n, o, s, s);
      FailsBelow(c, a, b, n, o, s);
    }
    BelowIs(p, q);
  }

  lemma RoundsBelow(c: Expr, a: Action, b: Action, n: nat, o: State, s: State, t: State)
    requires Below(a, b) && Rounds(c, a, n, o, s, t)
    ensures Rounds(c, b, n, o, s, t)
  {
    hide CondHolds, Below, Iterates;
    var k: nat :| k <= n && Iterates(c, a, k, o, s, t);
    BelowRounds(c, a, b, k, o, s, t);
  }

  lemma FailsBelow(c: Expr, a: Action, b: Action, n: nat, o: State, s: State)
    requires Below(a, b) && FailsWithin(c, a, n, o, s)
    ensures FailsWithin(c, b, n, o, s)
  {
    hide CondHolds, Below, Iterates, Aborts;
    var k: nat, m: State :| k < n && Iterates(c, a, k, o, s, m) && CondHolds(c, o, m) && Aborts(a, o, m);
    BelowRounds(c, a, b, k, o, s, m);
    BelowAt(a, b, o, m, m);
  }

  lemma BelowTrans(a: Action, b: Action, c: Action)
    requires Below(a, b) && Below(b, c)
    ensures Below(a, c)
  {
    hide Exec, Aborts;
  }

  /** Unrolling further loses no run and no failure. */
  lemma {:induction false} UnrollMore(a: Action, n: nat, n': nat)
    requires n <= n'
    ensures Below(UnrollLoops(a, n), UnrollLoops(a, n'))
    decreases a
  {
    hide Below;
    match a
    case Sequence(es) =>
      forall k | 0 <= k < |es| ensures Below(UnrollAll(es, n)[k], UnrollAll(es, n')[k]) { UnrollMore(es[k], n, n'); }
      BelowSequence(UnrollAll(es, n), UnrollAll(es, n'));
    case Choice(bs) =>
      forall k | 0 <= k < |bs| ensures Below(UnrollAll(bs, n)[k], UnrollAll(bs, n')[k]) { UnrollMore(bs[k], n, n'); }
      BelowChoice(UnrollAll(bs, n), UnrollAll(bs, n'));
    case If(c, thn, els) =>
      UnrollMore(thn, n, n'); UnrollMore(els, n, n');
      BelowIf(c, UnrollLoops(thn, n), UnrollLoops(els, n), UnrollLoops(thn, n'), UnrollLoops(els, n'));
    case Local(xs, body) => UnrollMore(body, n, n'); BelowLocal(xs, UnrollLoops(body, n), UnrollLoops(body, n'));
    case BindOldsAction(inner) =>
      UnrollMore(inner, n, n');
      BelowBindOlds(UnrollLoops(inner, n), UnrollLoops(inner, n'));
    case While(c, invs, rank, body) =>
      var b, b' := UnrollLoops(body, n), UnrollLoops(body, n');
      UnrollMore(body, n, n');
      UnrolledBelow(c, b, b', n);
      UnrolledMonotone(c, invs, rank, b', n, n');
      BelowTrans(Unrolled(c, b, n), Unrolled(c, b', n), Unrolled(c, b', n'));
    case IfSome(some, thn, els) =>
      UnrollMore(thn, n, n'); UnrollMore(els, n, n');
      BelowSome(some, UnrollLoops(thn, n), UnrollLoops(els, n), UnrollLoops(thn, n'), UnrollLoops(els, n'));
    case _ => BelowSelf(a);
  }

  /** Unrolling adds no run and no failure. */
  lemma {:induction false} UnrollBelow(a: Action, n: nat)
    ensures Below(UnrollLoops(a, n), a)
    decreases a
  {
    hide Below;
    match a
    case Sequence(es) =>
      forall k | 0 <= k < |es| ensures Below(UnrollAll(es, n)[k], es[k]) { UnrollBelow(es[k], n); }
      BelowSequence(UnrollAll(es, n), es);
    case Choice(bs) =>
      forall k | 0 <= k < |bs| ensures Below(UnrollAll(bs, n)[k], bs[k]) { UnrollBelow(bs[k], n); }
      BelowChoice(UnrollAll(bs, n), bs);
    case If(c, thn, els) =>
      UnrollBelow(thn, n); UnrollBelow(els, n);
      BelowIf(c, UnrollLoops(thn, n), UnrollLoops(els, n), thn, els);
    case Local(xs, body) => UnrollBelow(body, n); BelowLocal(xs, UnrollLoops(body, n), body);
    case BindOldsAction(inner) => UnrollBelow(inner, n); BelowBindOlds(UnrollLoops(inner, n), inner);
    case While(c, invs, rank, body) =>
      UnrollBelow(body, n);
      UnrolledBelow(c, UnrollLoops(body, n), body, n);
      UnrolledMonotone(c, invs, rank, body, n, n);
      BelowTrans(UnrollLoops(a, n), Unrolled(c, body, n), a);
    case IfSome(some, thn, els) =>
      UnrollBelow(thn, n); UnrollBelow(els, n);
      BelowSome(some, UnrollLoops(thn, n), UnrollLoops(els, n), thn, els);
    case _ => BelowSelf(a);
  }

  function Max(m: nat, n: nat): nat { if m <= n then n else m }

  lemma Raised(a: Action, n: nat, n': nat, o: State, s: State, t: State)
    requires n <= n'
    ensures Exec(UnrollLoops(a, n), o, s, t) ==> Exec(UnrollLoops(a, n'), o, s, t)
    ensures Aborts(UnrollLoops(a, n), o, s) ==> Aborts(UnrollLoops(a, n'), o, s)
  {
    hide Exec, Aborts, UnrollLoops, Below;
    UnrollMore(a, n, n');
    BelowAt(UnrollLoops(a, n), UnrollLoops(a, n'), o, s, t);
  }

  /** Every run is a run of some unrolling. */
  lemma {:induction false} RunUnrolled(a: Action, o: State, s: State, t: State) returns (n: nat)
    requires Exec(a, o, s, t)
    ensures Exec(UnrollLoops(a, n), o, s, t)
    decreases a, 1, 0
  {
    hide True, CondHolds;
    match a
    case Sequence(es) => n := SequenceUnrolled(es, o, s, t);
    case Choice(_) => n := ChoiceUnrolled(a, o, s, t);
    case If(c, thn, els) =>
      if CondHolds(c, o, s) { n := RunUnrolled(thn, o, s, t); } else { n := RunUnrolled(els, o, s, t); }
    case Local(_, _) => n := LocalUnrolled(a, o, s, t);
    case BindOldsAction(inner) => n := RunUnrolled(inner, s, s, t);
    case While(_, _, _, _) => n := LoopUnrolled(a, o, s, t);
    case IfSome(_, _, _) => n := SomeUnrolled(a, o, s, t);
    case _ => n := 0;
  }

  lemma {:induction false} ChoiceUnrolled(a: Action, o: State, s: State, t: State) returns (n: nat)
    requires a.Choice? && Exec(a, o, s, t)
    ensures Exec(UnrollLoops(a, n), o, s, t)
    decreases a, 0, 0
  {
    var bs := a.branches;
    var k :| 0 <= k < |bs| && Exec(bs[k], o, s, t);
    n := RunUnrolled(bs[k], o, s, t);
    assert Exec(UnrollAll(bs, n)[k], o, s, t);
  }

  lemma {:induction false} LocalUnrolled(a: Action, o: State, s: State, t: State) returns (n: nat)
    requires a.Local? && Exec(a, o, s, t)
    ensures Exec(UnrollLoops(a, n), o, s, t)
    decreases a, 0, 0
  {
    hide SameOff, SameOn;
    var s1: State, t1: State :| SameOff(a.xs, s1, s) && SameOff(a.xs, t1, t) && Exec(a.body, o, s1, t1);
    n := RunUnrolled(a.body, o, s1, t1);
  }

  lemma {:induction false} SomeUnrolled(a: Action, o: State, s: State, t: State) returns (n: nat)
    requires a.IfSome? && Exec(a, o, s, t)
    ensures Exec(UnrollLoops(a, n), o, s, t)
    decreases a, 0, 0
  {
    hide SameOff, SameOn, Picked, Witnesses;
    var some := a.some;
    if (forall w: State :: !Witnesses(some, o, s, w)) && Exec(a.els, o, s, t) {
      n := RunUnrolled(a.els, o, s, t);
    } else {
      var w: State, t1: State :| Picked(some, o, s, w) && SameOff(some.params, t1, t) && Exec(a.thn, o, w, t1);
      n := RunUnrolled(a.thn, o, w, t1);
    }
  }

  lemma {:induction false} SequenceUnrolled(es: seq<Action>, o: State, s: State, t: State) returns (n: nat)
    requires ExecSeq(es, o, s, t)
    ensures ExecSeq(UnrollAll(es, n), o, s, t)
    decreases es, 0, 0
  {
    hide Exec, UnrollLoops;
    if es == [] {
      n := 0;
    } else {
      hide ExecSeq;
      var l := |es| - 1;
      var m := Unsnoc(es, o, s, t);
      var n1 := SequenceUnrolled(es[..l], o, s, m);
      var n2 := RunUnrolled(es[l], o, m, t);
      n := Max(n1, n2);
      RaisedAll(es[..l], n1, n, o, s, m);
      Raised(es[l], n2, n, o, m, t);
      SequenceAt(es, n, o, s, m, t);
    }
  }

  lemma SequenceAt(es: seq<Action>, n: nat, o: State, s: State, m: State, t: State)
    requires es != [] && ExecSeq(UnrollAll(es[..|es| - 1], n), o, s, m)
    requires Exec(UnrollLoops(es[|es| - 1], n), o, m, t)
    ensures ExecSeq(UnrollAll(es, n), o, s, t)
  {
    hide Exec, ExecSeq, UnrollLoops;
    var l := |es| - 1;
    ExecSnoc(UnrollAll(es[..l], n), UnrollLoops(es[l], n), o, s, m, t);
  }

  lemma RaisedAll(es: seq<Action>, n: nat, n': nat, o: State, s: State, t: State)
    requires n <= n'
    ensures ExecSeq(UnrollAll(es, n), o, s, t) ==> ExecSeq(UnrollAll(es, n'), o, s, t)
    ensures AbortsSeq(UnrollAll(es, n), o, s) ==> AbortsSeq(UnrollAll(es, n'), o, s)
  {
    Raised(Sequence(es), n, n', o, s, t);
    SequenceIs(UnrollAll(es, n), o, s, t);
    SequenceIs(UnrollAll(es, n'), o, s, t);
  }

  lemma {:induction false} RoundsUnrolled(c: Expr, body: Action, k: nat, o: State, s: State, t: State) returns (n: nat)
    requires Iterates(c, body, k, o, s, t)
    ensures Iterates(c, UnrollLoops(body, n), k, o, s, t)
    decreases body, 2, k
  {
    hide Exec, Iterates, UnrollLoops;
    if k == 0 {
      n := 0;
      NoRound(c, body, o, s, t);
      NoRound(c, UnrollLoops(body, n), o, s, t);
    } else {
      var m := LastRound(c, body, k, o, s, t);
      var n1 := RoundsUnrolled(c, body, k - 1, o, s, m);
      var n2 := RunUnrolled(body, o, m, t);
      n := Max(n1, n2);
      UnrollMore(body, n1, n);
      BelowRounds(c, UnrollLoops(body, n1), UnrollLoops(body, n), k - 1, o, s, m);
      Raised(body, n2, n, o, m, t);
      OneMore(c, UnrollLoops(body, n), k, o, s, m, t);
    }
  }

  lemma {:induction false} LoopUnrolled(a: Action, o: State, s: State, t: State) returns (n: nat)
    requires a.While? && Exec(a, o, s, t)
    ensures Exec(UnrollLoops(a, n), o, s, t)
    decreases a, 0, 0
  {
    hide Exec, Iterates, CondHolds;
    var k := WhileRun(a, o, s, t);
    var n1 := RoundsUnrolled(a.cond, a.body, k, o, s, t);
    n := Max(k, n1);
    UnrollMore(a.body, n1, n);
    BelowRounds(a.cond, UnrollLoops(a.body, n1), UnrollLoops(a.body, n), k, o, s, t);
    UnrolledExact(a.cond, UnrollLoops(a.body, n), n, o, s, t);
  }

  /** Every failure is a failure of some unrolling. */
  lemma {:induction false} AbortUnrolled(a: Action, o: State, s: State) returns (n: nat)
    requires Aborts(a, o, s)
    ensures Aborts(UnrollLoops(a, n), o, s)
    decreases a, 1
  {
    hide True, CondHolds, Exec;
    n := 0;
    match a
    case Sequence(es) => n := SequenceAbortUnrolled(es, o, s);
    case Choice(_) => n := ChoiceAbortUnrolled(a, o, s);
    case If(_, _, _) => n := IfAbortUnrolled(a, o, s);
    case Local(_, _) => n := LocalAbortUnrolled(a, o, s);
    case BindOldsAction(inner) => n := AbortUnrolled(inner, s, s);
    case While(_, _, _, _) => n := LoopAbortUnrolled(a, o, s);
    case IfSome(_, _, _) => n := SomeAbortUnrolled(a, o, s);
    case _ =>
  }

  lemma {:induction false} ChoiceAbortUnrolled(a: Action, o: State, s: State) returns (n: nat)
    requires a.Choice? && Aborts(a, o, s)
    ensures Aborts(UnrollLoops(a, n), o, s)
    decreases a, 0
  {
    var bs := a.branches;
    var k :| 0 <= k < |bs| && Aborts(bs[k], o, s);
    n := AbortUnrolled(bs[k], o, s);
    assert Aborts(UnrollAll(bs, n)[k], o, s);
  }

  lemma {:induction false} IfAbortUnrolled(a: Action, o: State, s: State) returns (n: nat)
    requires a.If? && Aborts(a, o, s)
    ensures Aborts(UnrollLoops(a, n), o, s)
    decreases a, 0
  {
    hide CondHolds;
    if CondHolds(a.cond, o, s) { n := AbortUnrolled(a.thn, o, s); } else { n := AbortUnrolled(a.els, o, s); }
  }

  lemma {:induction false} LocalAbortUnrolled(a: Action, o: State, s: State) returns (n: nat)
    requires a.Local? && Aborts(a, o, s)
    ensures Aborts(UnrollLoops(a, n), o, s)
    decreases a, 0
  {
    hide SameOff;
    var s1: State :| SameOff(a.xs, s1, s) && Aborts(a.body, o, s1);
    n := AbortUnrolled(a.body, o, s1);
  }

  lemma {:induction false} SomeAbortUnrolled(a: Action, o: State, s: State) returns (n: nat)
    requires a.IfSome? && Aborts(a, o, s)
    ensures Aborts(UnrollLoops(a, n), o, s)
    decreases a, 0
  {
    hide Picked, Witnesses;
    var some := a.some;
    if (forall w: State :: !Witnesses(some, o, s, w)) && Aborts(a.els, o, s) {
      n := AbortUnrolled(a.els, o, s);
    } else {
      var w: State :| Picked(some, o, s, w) && Aborts(a.thn, o, w);
      n := AbortUnrolled(a.thn, o, w);
    }
  }

  lemma {:induction false} SequenceAbortUnrolled(es: seq<Action>, o: State, s: State) returns (n: nat)
    requires AbortsSeq(es, o, s)
    ensures AbortsSeq(UnrollAll(es, n), o, s)
    decreases es, 0
  {
    hide Exec, Aborts, UnrollLoops;
    var l := |es| - 1;
    if AbortsSeq(es[..l], o, s) {
      n := SequenceAbortUnrolled(es[..l], o, s);
      AbortPrefix(UnrollAll(es[..l], n), [UnrollLoops(es[l], n)], o, s);
    } else {
      var m: State :| ExecSeq(es[..l], o, s, m) && Aborts(es[l], o, m);
      hide ExecSeq, AbortsSeq;
      var n1 := SequenceUnrolled(es[..l], o, s, m);
      var n2 := AbortUnrolled(es[l], o, m);
      n := Max(n1, n2);
      RaisedAll(es[..l], n1, n, o, s, m);
      Raised(es[l], n2, n, o, m, m);
      AbortSnoc(UnrollAll(es[..l], n), UnrollLoops(es[l], n), o, s, m);
    }
  }

  lemma {:induction false} LoopAbortUnrolled(a: Action, o: State, s: State) returns (n: nat)
    requires a.While? && Aborts(a, o, s)
    ensures Aborts(UnrollLoops(a, n), o, s)
    decreases a, 0
  {
    hide Exec, Iterates, CondHolds;
    var k: nat, m: State :| Iterates(a.cond, a.body, k, o, s, m) && CondHolds(a.cond, o, m) && Aborts(a.body, o, m);
    var n1 := RoundsUnrolled(a.cond, a.body, k, o, s, m);
    var n2 := AbortUnrolled(a.body, o, m);
    n := Max(k + 1, Max(n1, n2));
    UnrollMore(a.body, n1, n);
    BelowRounds(a.cond, UnrollLoops(a.body, n1), UnrollLoops(a.body, n), k, o, s, m);
    Raised(a.body, n2, n, o, m, m);
    assert FailsWithin(a.cond, UnrollLoops(a.body, n), n, o, s);
    UnrolledExact(a.cond, UnrollLoops(a.body, n), n, o, s, s);
  }

  /** Unrolling approximates the action from below, and in the limit exactly. */
  lemma UnrollLimit(a: Action, o: State, s: State, t: State)
    ensures Exec(a, o, s, t) <==> exists n: nat :: Exec(UnrollLoops(a, n), o, s, t)
    ensures Aborts(a, o, s) <==> exists n: nat :: Aborts(UnrollLoops(a, n), o, s)
  {
    hide Exec, Aborts, UnrollLoops, Below;
    forall n: nat
      ensures Exec(UnrollLoops(a, n), o, s, t) ==> Exec(a, o, s, t)
      ensures Aborts(UnrollLoops(a, n), o, s) ==> Aborts(a, o, s)
    {
      UnrollBelow(a, n);
      BelowAt(UnrollLoops(a, n), a, o, s, t);
    }
    if Exec(a, o, s, t) { var n := RunUnrolled(a, o, s, t); }
    if Aborts(a, o, s) { var n := AbortUnrolled(a, o, s); }
  }

  // ----- what unrolling computes -----

  /** Every execution of a loop, nested ones too, makes at most n rounds. */
  function Bounded(n: nat): Limit
  {
    Limit(false, Some(n))
  }

  lemma LikeUnrolled(n: nat, c: Expr, invs: seq<Expr>, rank: Option<Expr>, a: Action, a': Action)
    requires Like(Bounded(n), a, a')
    ensures Like(Bounded(n), While(c, invs, rank, a), Unrolled(c, a', n))
  {
    hide CondHolds, Iterates, LimitedRounds, Unrolled, Like, Exec, Aborts, LimitedRun, LimitedFail;
    var p, q := While(c, invs, rank, a), Unrolled(c, a', n);
    forall o: State, s: State, t: State
      ensures Exec(q, o, s, t) <==> LimitedRun(Bounded(n), p, o, s, t)
    {
      UnrolledExact(c, a', n, o, s, t);
      RoundsLimited(n, c, invs, rank, a, a', o, s, t);
    }
    forall o: State, s: State
      ensures Aborts(q, o, s) <==> LimitedFail(Bounded(n), p, o, s)
    {
      UnrolledExact(c, a', n, o, s, s);
      FailsLimited(n, c, invs, rank, a, a', o, s);
    }
    LikeIs(Bounded(n), p, q);
  }

  lemma RoundsLimited(n: nat, c: Expr, invs: seq<Expr>, rank: Option<Expr>, a: Action, a': Action, o: State, s: State,
                      t: State)
    requires Like(Bounded(n), a, a')
    ensures Rounds(c, a', n, o, s, t) <==> LimitedRun(Bounded(n), While(c, invs, rank, a), o, s, t)
  {
    hide CondHolds, Iterates, LimitedRounds, Like;
    forall k: nat
      ensures Iterates(c, a', k, o, s, t) <==> LimitedRounds(Bounded(n), c, a, k, o, s, t)
    {
      LikeRounds(Bounded(n), c, a, a', k, o, s, t);
    }
  }

  lemma FailsLimited(n: nat, c: Expr, invs: seq<Expr>, rank: Option<Expr>, a: Action, a': Action, o: State, s: State)
    requires Like(Bounded(n), a, a')
    ensures FailsWithin(c, a', n, o, s) <==> LimitedFail(Bounded(n), While(c, invs, rank, a), o, s)
  {
    hide CondHolds, Iterates, LimitedRounds, Like, Aborts, LimitedFail;
    LimitedLoopFail(n, c, invs, rank, a, o, s);
    if k: nat, m: State :| k < n && Iterates(c, a', k, o, s, m) && CondHolds(c, o, m) && Aborts(a', o, m) {
      LikeRounds(Bounded(n), c, a, a', k, o, s, m);
      LikeAt(Bounded(n), a, a', o, m, m);
      assert LoopFailAt(n, c, a, o, s, k, m);
    }
    if k: nat, m: State :| LoopFailAt(n, c, a, o, s, k, m) {
      LikeRounds(Bounded(n), c, a, a', k, o, s, m);
      LikeAt(Bounded(n), a, a', o, m, m);
    }
  }

  ghost predicate LoopFailAt(n: nat, c: Expr, a: Action, o: State, s: State, k: nat, m: State)
  {
    k < n && LimitedRounds(Bounded(n), c, a, k, o, s, m) && CondHolds(c, o, m) && LimitedFail(Bounded(n), a, o, m)
  }

  lemma LimitedLoopFail(n: nat, c: Expr, invs: seq<Expr>, rank: Option<Expr>, a: Action, o: State, s: State)
    ensures LimitedFail(Bounded(n), While(c, invs, rank, a), o, s) <==>
            exists k: nat, m: State :: LoopFailAt(n, c, a, o, s, k, m)
  {
    hide CondHolds, LimitedRounds;
    if LimitedFail(Bounded(n), While(c, invs, rank, a), o, s) {
      var k: nat, m: State :|
        k < n && LimitedRounds(Bounded(n), c, a, k, o, s, m) && CondHolds(c, o, m) && LimitedFail(Bounded(n), a, o, m);
      assert LoopFailAt(n, c, a, o, s, k, m);
    }
  }

  lemma {:induction false} UnrolledLike(a: Action, n: nat)
    ensures Like(Bounded(n), a, UnrollLoops(a, n))
    decreases a
  {
    hide Like;
    var l := Bounded(n);
    match a
    case Assert(f) => AssertLike(f, n);
    case Sequence(es) =>
      forall k | 0 <= k < |es| ensures Like(l, es[k], UnrollAll(es, n)[k]) { UnrolledLike(es[k], n); }
      LikeSequence(l, es, UnrollAll(es, n));
    case Choice(bs) =>
      forall k | 0 <= k < |bs| ensures Like(l, bs[k], UnrollAll(bs, n)[k]) { UnrolledLike(bs[k], n); }
      LikeChoice(l, bs, UnrollAll(bs, n));
    case If(c, thn, els) =>
      UnrolledLike(thn, n); UnrolledLike(els, n);
      LikeIf(l, c, thn, els, UnrollLoops(thn, n), UnrollLoops(els, n));
    case Local(xs, body) => UnrolledLike(body, n); LikeLocal(l, xs, body, UnrollLoops(body, n));
    case BindOldsAction(inner) => UnrolledLike(inner, n); LikeBind(l, inner, UnrollLoops(inner, n));
    case While(c, invs, rank, body) =>
      UnrolledLike(body, n);
      LikeUnrolled(n, c, invs, rank, body, UnrollLoops(body, n));
    case IfSome(some, thn, els) =>
      UnrolledLike(thn, n); UnrolledLike(els, n);
      LikeSome(l, some, thn, els, UnrollLoops(thn, n), UnrollLoops(els, n));
    case _ => LikePlain(l, a);
  }

  lemma AssertLike(f: Expr, n: nat)
    ensures Like(Bounded(n), Assert(f), Assert(f))
  {
    hide True;
  }

  /** With its loops unrolled, the action has exactly the runs and the failures on which every loop makes at most n
      rounds. */
  lemma UnrollExact(a: Action, n: nat, o: State, s: State, t: State)
    ensures Exec(UnrollLoops(a, n), o, s, t) <==> LimitedRun(Bounded(n), a, o, s, t)
    ensures Aborts(UnrollLoops(a, n), o, s) <==> LimitedFail(Bounded(n), a, o, s)
  {
    hide Exec, Aborts, LimitedRun, LimitedFail, Like, UnrollLoops;
    UnrolledLike(a, n);
    LikeAt(Bounded(n), a, UnrollLoops(a, n), o, s, t);
  }

  lemma {:induction false} NothingUnrolled(a: Action, n: nat)
    requires !HasLoop(a)
    ensures UnrollLoops(a, n) == a
    decreases a
  {
    match a
    case Sequence(es) => forall k | 0 <= k < |es| ensures UnrollAll(es, n)[k] == es[k] { NothingUnrolled(es[k], n); }
    case Choice(bs) => forall k | 0 <= k < |bs| ensures UnrollAll(bs, n)[k] == bs[k] { NothingUnrolled(bs[k], n); }
    case If(_, thn, els) => NothingUnrolled(thn, n); NothingUnrolled(els, n);
    case Local(_, body) => NothingUnrolled(body, n);
    case BindOldsAction(inner) => NothingUnrolled(inner, n);
    case IfSome(_, thn, els) => NothingUnrolled(thn, n); NothingUnrolled(els, n);
    case _ =>
  }

  /** Within the usable bounds, the action is unrolled; an action without loops, and a looping one with another bound,
      stay as they are. */
  lemma UnrollActionExact(a: Action, n: int, o: State, s: State, t: State)
    ensures 0 <= n <= 100 ==> (Exec(UnrollAction(a, n), o, s, t) <==> LimitedRun(Bounded(n), a, o, s, t))
    ensures 0 <= n <= 100 ==> (Aborts(UnrollAction(a, n), o, s) <==> LimitedFail(Bounded(n), a, o, s))
    ensures !(0 <= n <= 100) || !HasLoop(a) ==> UnrollAction(a, n) == a
  {
    hide Exec, Aborts, LimitedRun, LimitedFail, UnrollLoops;
    if 0 <= n <= 100 { UnrollExact(a, n, o, s, t); }
    if !HasLoop(a) { NothingUnrolled(a, if n < 0 then 0 else n); }
  }
}
