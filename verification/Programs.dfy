/**
 Whole programs: loops are expanded and calls are inlined before the update is computed.  If the update of the
 result cannot fail, no run of the program fails, and every run is described by the update; without loops the
 update is exact.
 */
module Programs {
  import opened Options
  import opened Names
  import opened Logic
  import opened ClauseOps
  import opened Updates
  import opened Hiding
  import opened Substitution
  import opened Actions
  import opened Runs
  import opened Equivariance
  import opened Refinement
  import opened Atoms
  import opened Compiler
  import opened Loops
  import opened Calls
  import opened Somes
  import opened Sizes

  // ----- size -----

  lemma {:induction false} SizeRenamed(a: Action, m: IdMap)
    ensures Size(RenameAction(a, m)) == Size(a)
    decreases a, 1
  {
    hide RenameExpr, RenameExprs, Renamed, TargetOf;
    match a
    case Sequence(es) => SizeRenamedAll(es, m);
    case Choice(bs) => SizeRenamedAll(bs, m);
    case If(_, thn, els) => SizeRenamed(thn, m); SizeRenamed(els, m);
    case Local(_, body) => SizeRenamed(body, m);
    case BindOldsAction(inner) => SizeRenamed(inner, m);
    case While(_, _, _, body) => SizeRenamed(body, m);
    case IfSome(_, thn, els) => SizeRenamed(thn, m); SizeRenamed(els, m);
    case _ =>
  }

  lemma {:induction false} SizeRenamedAll(es: seq<Action>, m: IdMap)
    ensures SizeAll(RenameActions(es, m)) == SizeAll(es)
    decreases es, 0
  {
    if es != [] {
      var n := |es| - 1;
      SizeRenamedAll(es[..n], m);
      SizeRenamed(es[n], m);
      SizeSnoc(RenameActions(es[..n], m), RenameAction(es[n], m));
    }
  }

  /** The call without a call, or the call itself when the numbers of arguments do not match. */
  function InlineCall(a: Action): Action
    requires a.Call?
  {
    match ApplyActuals(a.params, a.results, a.callee, a.actuals, a.outs)
    case None => a
    case Some(r) => r
  }

  lemma SizeInlined(a: Action)
    requires a.Call? && InlineCall(a) != a
    ensures Size(InlineCall(a)) < Size(a)
  {
    hide DistinctObjRenaming, RenameAction, Size;
    var m := CallRenaming(a.params, a.results, a.actuals, a.outs);
    var ins, outs := Ins(IdsOf(m, a.params), a.actuals), Outs(a.outs, IdsOf(m, a.results));
    SizeRenamed(a.callee, m);
    SizeSteps(IdsOf(m, a.params) + IdsOf(m, a.results), ins, RenameAction(a.callee, m), outs);
    SizeCall(a);
  }

  lemma SizeCall(a: Action)
    requires a.Call?
    ensures Size(a) == 10 + Size(a.callee) + |a.actuals| + |a.outs|
  {
  }

  lemma SizeSteps(xs: seq<Id>, ins: seq<Action>, callee: Action, outs: seq<Action>)
    requires (forall e :: e in ins ==> e.Assign?) && forall e :: e in outs ==> e.Assign?
    ensures Size(Local(xs, Sequence([Sequence(ins), BindOldsAction(callee), Sequence(outs)]))) ==
            5 + |ins| + |outs| + Size(callee)
  {
    var x, y, z := Sequence(ins), BindOldsAction(callee), Sequence(outs);
    SizeOnes(ins);
    SizeOnes(outs);
    SizePair(x, y);
    SizeSnoc([x, y], z);
    assert [x, y] + [z] == [x, y, z];
    assert Size(x) == 1 + |ins| && Size(z) == 1 + |outs| && Size(y) == 1 + Size(callee);
    assert Size(Sequence([x, y, z])) == 4 + |ins| + |outs| + Size(callee);
  }

  // ----- lowering -----

  /** The action in terms of the constructs that updates are computed for directly.  A call with the wrong
      number of arguments and a loop whose body cannot be lowered remain, and have no update. */
  function Lower(a: Action): Action
    decreases Size(a), 0
  {
    match a
    case Sequence(es) => Sequence(LowerAll(es))
    case Choice(bs) => Choice(LowerAll(bs))
    case If(c, thn, els) => If(c, Lower(thn), Lower(els))
    case Local(xs, body) => Local(xs, Lower(body))
    case BindOldsAction(inner) => BindOldsAction(Lower(inner))
    case While(c, invs, rank, body) =>
      var b := Lower(body);
      if Core(b) then Expand(c, invs, rank, b) else While(c, invs, rank, b)
    case IfSome(some, thn, els) => IfSome(some, Lower(thn), Lower(els))
    case Call(_, _, _, _, _) => if InlineCall(a) == a then a else SizeInlined(a); Lower(InlineCall(a))
    case _ => a
  }

  function LowerAll(es: seq<Action>): (r: seq<Action>)
    ensures |r| == |es|
    decreases SizeAll(es), 1
  {
    if es == [] then [] else LowerAll(es[..|es| - 1]) + [Lower(es[|es| - 1])]
  }

  lemma {:induction false} LowerAllAt(es: seq<Action>, k: nat)
    requires k < |es|
    ensures LowerAll(es)[k] == Lower(es[k])
  {
    hide Lower;
    if k < |es| - 1 { LowerAllAt(es[..|es| - 1], k); }
  }

  /** What compilation relies on for atomic actions and conditions, and what lowering relies on at every loop,
      "if some" and call met on the way. */
  predicate Lowerable(a: Action)
    decreases Size(a), 0
  {
    match a
    case Sequence(es) => LowerableAll(es)
    case Choice(bs) => LowerableAll(bs)
    case If(c, thn, els) => StateExpr(c) && Closed(c) && Lowerable(thn) && Lowerable(els)
    case Local(_, body) => Lowerable(body)
    case BindOldsAction(inner) => Lowerable(inner)
    case While(c, invs, rank, body) => Lowerable(body) && LoopOk(c, invs, rank, Lower(body))
    case IfSome(some, thn, els) =>
      && SomeOk(some) && CoreAtom(Assume(SomeFormula(some))) && CoreAtom(Assume(NoneFormula(some)))
      && Lowerable(thn) && Lowerable(els)
    case Call(params, results, callee, actuals, outs) =>
      && Callable(params, results, callee, actuals, outs)
      && InlineCall(a) != a && (SizeInlined(a); Lowerable(InlineCall(a)))
    case _ => Core(a)
  }

  predicate LowerableAll(es: seq<Action>)
    decreases SizeAll(es), 1
  {
    es == [] || (LowerableAll(es[..|es| - 1]) && Lowerable(es[|es| - 1]))
  }

  lemma {:induction false} LowerableMember(es: seq<Action>, k: nat)
    requires LowerableAll(es) && k < |es|
    ensures Lowerable(es[k]) && Size(es[k]) <= SizeAll(es)
  {
    SizeMember(es, k);
    if k < |es| - 1 { LowerableMember(es[..|es| - 1], k); }
  }

  /** Lowering leaves constructs that updates are computed for. */
  lemma {:induction false} LowerCore(a: Action)
    requires Lowerable(a)
    ensures Core(Lower(a))
    decreases Size(a), 2
  {
    hide LoopOk, SomeOk, Callable, StateExpr, Closed, InlineCall, Parts, Expand;
    match a
    case Sequence(es) => LowerAllCore(es);
    case Choice(bs) => LowerAllCore(bs);
    case If(_, thn, els) => LowerCore(thn); LowerCore(els);
    case Local(_, body) => LowerCore(body);
    case BindOldsAction(inner) => LowerCore(inner);
    case While(c, invs, rank, body) => LowerCore(body); ExpandCore(c, invs, rank, Lower(body));
    case IfSome(_, thn, els) => LowerCore(thn); LowerCore(els);
    case Call(_, _, _, _, _) => LowerCallCore(a);
    case _ =>
  }

  lemma {:induction false} LowerCallCore(a: Action)
    requires a.Call? && Lowerable(a)
    ensures Core(Lower(a))
    decreases Size(a), 0
  {
    hide Callable, InlineCall, Core, Size;
    SizeInlined(a);
    LowerCore(InlineCall(a));
  }

  lemma {:induction false} LowerAllCore(es: seq<Action>)
    requires LowerableAll(es)
    ensures forall e :: e in LowerAll(es) ==> Core(e)
    decreases SizeAll(es), 3
  {
    hide Core, Lower, Lowerable;
    forall e | e in LowerAll(es)
      ensures Core(e)
    {
      var k :| 0 <= k < |es| && LowerAll(es)[k] == e;
      LowerableMember(es, k);
      LowerAllAt(es, k);
      LowerCore(es[k]);
    }
  }

  /** The update of the lowered program. */
  function Compiled(a: Action): Update
    requires Lowerable(a)
  {
    LowerCore(a);
    IntUpdate(Lower(a))
  }

  // ----- soundness -----

  lemma SimLoop(c: Expr, invs: seq<Expr>, rank: Option<Expr>, original: Action, body: Action)
    requires LoopOk(c, invs, rank, body) && Sim(true, original, body)
    ensures Sim(true, While(c, invs, rank, original), Expand(c, invs, rank, body))
  {
    var a, b := While(c, invs, rank, original), Expand(c, invs, rank, body);
    CoversSim(original, body);
    hide Exec, Aborts, LoopOk, Expand, Covers;
    forall o: State, s: State | !Aborts(b, o, s)
      ensures Within(a, b, o, s)
    {
      LoopSound(c, invs, rank, original, body, o, s);
    }
  }

  lemma CoversSim(original: Action, body: Action)
    requires Sim(true, original, body)
    ensures Covers(original, body)
  {
    hide Exec, Aborts;
    forall o: State, s: State | !Aborts(body, o, s)
      ensures !Aborts(original, o, s) && forall t: State :: Exec(original, o, s, t) ==> Exec(body, o, s, t)
    {
      SimAt(true, original, body, o, s);
    }
  }

  ghost predicate Equal(a: Action, b: Action)
  {
    && (forall o: State, s: State, t: State :: Exec(a, o, s, t) <==> Exec(b, o, s, t))
    && (forall o: State, s: State :: Aborts(a, o, s) <==> Aborts(b, o, s))
  }

  lemma SimEqual(a: Action, b: Action, c: Action)
    requires Equal(a, b) && Sim(true, a, c)
    ensures Sim(true, b, c)
  {
    hide Exec, Aborts;
    forall o: State, s: State | !Aborts(c, o, s)
      ensures Within(b, c, o, s)
    {
      SimAt(true, a, c, o, s);
    }
  }

  lemma InlineEqual(a: Action)
    requires a.Call? && InlineCall(a) != a && Callable(a.params, a.results, a.callee, a.actuals, a.outs)
    ensures Equal(InlineCall(a), a)
  {
    hide Exec, Aborts, Callable, ApplyActuals;
    InliningCorrect(a.params, a.results, a.callee, a.actuals, a.outs);
  }

  /** Where the lowered action cannot abort, the action cannot, and the lowered action has all its runs. */
  lemma {:induction false} LowerSound(a: Action)
    requires Lowerable(a)
    ensures Sim(true, a, Lower(a))
    decreases Size(a), 0
  {
    hide Sim, LoopOk, SomeOk, Callable;
    match a
    case Sequence(es) => LowerAllSound(es); SimSequence(true, es, LowerAll(es));
    case Choice(bs) => LowerAllSound(bs); SimChoice(true, bs, LowerAll(bs));
    case If(c, thn, els) => LowerSound(thn); LowerSound(els); SimIf(true, c, thn, els, Lower(thn), Lower(els));
    case Local(xs, body) => LowerSound(body); SimLocal(true, xs, body, Lower(body));
    case BindOldsAction(inner) => LowerSound(inner); SimBindOlds(true, inner, Lower(inner));
    case While(c, invs, rank, body) =>
      LowerSound(body);
      assert Core(Lower(body)) by { LoopCore(c, invs, rank, Lower(body)); }
      SimLoop(c, invs, rank, body, Lower(body));
    case IfSome(some, thn, els) =>
      LowerSound(thn); LowerSound(els);
      SimSome(true, some, thn, els, Lower(thn), Lower(els));
    case Call(_, _, _, _, _) =>
      SizeInlined(a);
      LowerSound(InlineCall(a));
      InlineEqual(a);
      SimEqual(InlineCall(a), a, Lower(a));
    case _ => SimSelf(true, a);
  }

  lemma {:induction false} LowerAllSound(es: seq<Action>)
    requires LowerableAll(es)
    ensures SimAll(true, es, LowerAll(es))
    decreases SizeAll(es), 1
  {
    hide Sim;
    forall k | 0 <= k < |es|
      ensures Sim(true, es[k], LowerAll(es)[k])
    {
      LowerableMember(es, k);
      LowerAllAt(es, k);
      LowerSound(es[k]);
    }
  }

  /** The verification condition is sound: from a state where the update of the lowered program does not
      fail, no run of the program reaches a false assertion, and every run is a transition of the update. */
  lemma ProgramSound(a: Action, o: State, s: State)
    requires Lowerable(a)
    requires !Fails(Compiled(a), o, s)
    ensures !Aborts(a, o, s)
    ensures forall t: State :: Exec(a, o, s, t) ==> Rel(Compiled(a), o, s, t)
  {
    hide Exec, Aborts, Rel, Fails, Lowerable, Lower, IntUpdate;
    LowerSound(a);
    LowerCore(a);
    CompilerCorrect(Lower(a));
    SimAt(true, a, Lower(a), o, s);
  }

  // ----- exactness without loops -----

  predicate LoopFree(a: Action)
  {
    match a
    case Sequence(es) => forall e :: e in es ==> LoopFree(e)
    case Choice(bs) => forall b :: b in bs ==> LoopFree(b)
    case If(_, thn, els) => LoopFree(thn) && LoopFree(els)
    case Local(_, body) => LoopFree(body)
    case BindOldsAction(inner) => LoopFree(inner)
    case While(_, _, _, _) => false
    case IfSome(_, thn, els) => LoopFree(thn) && LoopFree(els)
    case Call(_, _, callee, _, _) => LoopFree(callee)
    case _ => true
  }

  lemma {:induction false} LoopFreeRenamed(a: Action, m: IdMap)
    requires LoopFree(a)
    ensures LoopFree(RenameAction(a, m))
    decreases a
  {
    hide RenameExpr, RenameExprs, Renamed, TargetOf;
    match a
    case Sequence(es) =>
      forall k | 0 <= k < |es| ensures LoopFree(RenameActions(es, m)[k]) { LoopFreeRenamed(es[k], m); }
    case Choice(bs) =>
      forall k | 0 <= k < |bs| ensures LoopFree(RenameActions(bs, m)[k]) { LoopFreeRenamed(bs[k], m); }
    case If(_, thn, els) => LoopFreeRenamed(thn, m); LoopFreeRenamed(els, m);
    case Local(_, body) => LoopFreeRenamed(body, m);
    case BindOldsAction(inner) => LoopFreeRenamed(inner, m);
    case IfSome(_, thn, els) => LoopFreeRenamed(thn, m); LoopFreeRenamed(els, m);
    case _ =>
  }

  lemma LoopFreeInlined(a: Action)
    requires a.Call? && LoopFree(a)
    ensures LoopFree(InlineCall(a))
  {
    hide DistinctObjRenaming, RenameAction, LoopFree;
    var m := CallRenaming(a.params, a.results, a.actuals, a.outs);
    CalleeLoopFree(a, m);
    if |a.params| == |a.actuals| && |a.results| == |a.outs| {
      var ins, outs := Ins(IdsOf(m, a.params), a.actuals), Outs(a.outs, IdsOf(m, a.results));
      AssignsLoopFree(ins);
      AssignsLoopFree(outs);
      ThreeLoopFree(Sequence(ins), BindOldsAction(RenameAction(a.callee, m)), Sequence(outs));
      LocalLoopFree(IdsOf(m, a.params) + IdsOf(m, a.results),
                    Sequence([Sequence(ins), BindOldsAction(RenameAction(a.callee, m)), Sequence(outs)]));
    }
  }

  lemma CalleeLoopFree(a: Action, m: IdMap)
    requires a.Call? && LoopFree(a)
    ensures LoopFree(BindOldsAction(RenameAction(a.callee, m)))
  {
    hide RenameAction;
    LoopFreeRenamed(a.callee, m);
  }

  lemma AssignsLoopFree(es: seq<Action>)
    requires forall e :: e in es ==> e.Assign?
    ensures LoopFree(Sequence(es))
  {
  }

  lemma LocalLoopFree(xs: seq<Id>, a: Action)
    requires LoopFree(a)
    ensures LoopFree(Local(xs, a))
  {
  }

  lemma ThreeLoopFree(a: Action, b: Action, c: Action)
    requires LoopFree(a) && LoopFree(b) && LoopFree(c)
    ensures LoopFree(Sequence([a, b, c]))
  {
  }

  lemma EqualBelow(a: Action, b: Action)
    ensures Equal(a, b) <==> Below(a, b) && Below(b, a)
  {
    hide Exec, Aborts;
  }

  lemma EqualTrans(a: Action, b: Action, c: Action)
    requires Equal(a, b) && Equal(a, c)
    ensures Equal(b, c)
  {
    hide Exec, Aborts;
  }

  /** Without loops, lowering changes no run and no failure. */
  lemma {:induction false} LowerExact(a: Action)
    requires Lowerable(a) && LoopFree(a)
    ensures Equal(a, Lower(a))
    decreases Size(a), 0
  {
    hide Equal, Below, SomeOk, Callable;
    EqualBelow(a, Lower(a));
    match a
    case Sequence(es) =>
      LowerAllExact(es);
      BelowSequence(es, LowerAll(es));
      BelowSequence(LowerAll(es), es);
    case Choice(bs) =>
      LowerAllExact(bs);
      BelowChoice(bs, LowerAll(bs));
      BelowChoice(LowerAll(bs), bs);
    case If(c, thn, els) =>
      LowerExact(thn); LowerExact(els);
      EqualBelow(thn, Lower(thn)); EqualBelow(els, Lower(els));
      BelowIf(c, thn, els, Lower(thn), Lower(els));
      BelowIf(c, Lower(thn), Lower(els), thn, els);
    case Local(xs, body) =>
      LowerExact(body);
      EqualBelow(body, Lower(body));
      BelowLocal(xs, body, Lower(body));
      BelowLocal(xs, Lower(body), body);
    case BindOldsAction(inner) =>
      LowerExact(inner);
      EqualBelow(inner, Lower(inner));
      BelowBindOlds(inner, Lower(inner));
      BelowBindOlds(Lower(inner), inner);
    case IfSome(some, thn, els) =>
      LowerExact(thn); LowerExact(els);
      EqualBelow(thn, Lower(thn)); EqualBelow(els, Lower(els));
      BelowSome(some, thn, els, Lower(thn), Lower(els));
      BelowSome(some, Lower(thn), Lower(els), thn, els);
    case Call(_, _, _, _, _) =>
      SizeInlined(a);
      LoopFreeInlined(a);
      LowerExact(InlineCall(a));
      InlineEqual(a);
      EqualTrans(InlineCall(a), a, Lower(a));
    case _ => BelowSelf(a);
  }

  lemma {:induction false} LowerAllExact(es: seq<Action>)
    requires LowerableAll(es) && forall e :: e in es ==> LoopFree(e)
    ensures BelowAll(es, LowerAll(es)) && BelowAll(LowerAll(es), es)
    decreases SizeAll(es), 1
  {
    hide Below, Equal, LoopFree;
    forall k | 0 <= k < |es|
      ensures Below(es[k], LowerAll(es)[k]) && Below(LowerAll(es)[k], es[k])
    {
      LowerableMember(es, k);
      LowerAllAt(es, k);
      assert es[k] in es;
      LowerExact(es[k]);
      EqualBelow(es[k], Lower(es[k]));
    }
  }

  /** The update of a program without loops has exactly its runs as transitions, and fails exactly where
      some run reaches a false assertion. */
  lemma ProgramExact(a: Action)
    requires Lowerable(a) && LoopFree(a)
    ensures forall o: State, s: State, t: State :: Rel(Compiled(a), o, s, t) <==> Exec(a, o, s, t)
    ensures forall o: State, s: State :: Fails(Compiled(a), o, s) <==> Aborts(a, o, s)
  {
    hide Exec, Aborts, Rel, Fails, Lowerable, Lower, IntUpdate, LoopFree;
    LowerExact(a);
    LowerCore(a);
    CompilerCorrect(Lower(a));
  }
}
