/**
 Annotations as the updates write them, and what they are for: every valuation of an action's transition
 formula, read through the annotation, tells the actions of a run between the states that it describes, and
 every valuation of the failing condition those of a run that ends in a false assertion.
 */
module Annotations {
  import opened Options
  import opened Names
  import opened Logic
  import opened ClauseOps
  import opened Updates
  import opened Hiding
  import opened Substitution
  import opened Actions
  import opened Sizes
  import opened Atoms
  import opened Somes
  import opened Compiler
  import Eq = Equivariance
  import W = Walkers

  // ----- the annotations of an update -----

  /** The annotations of the transition formula and of the failing condition. */
  datatype Notes = Notes(tr: W.Annot, pre: W.Annot)

  const NO_NOTES := Notes(W.Empty, W.Empty)

  function Renamed(n: W.Annot, m: Renaming): W.Annot
  {
    if m == map[] then n else W.Rename(n, m)
  }

  /** What tells that the second disjunct was taken: its flag, or nothing to ask if a disjunct is false. */
  function OrCond(c: Clauses, d: Clauses): W.Cond
  {
    if IsFalse(d) then W.Fixed(false)
    else if IsFalse(c) then W.Fixed(true)
    else
      var a := FreshBool(UsedNames(c) + UsedNames(d));
      W.On(FreshBool(UsedNames(c) + UsedNames(d) + {Spell(a)}))
  }

  function OrNote(c: Clauses, n: W.Annot, d: Clauses, n': W.Annot): W.Annot
  {
    W.Branch(OrCond(c, d), n', n)
  }

  function IteNote(cond: Expr, c: Clauses, n: W.Annot, d: Clauses, n': W.Annot): W.Annot
  {
    if IsFalse(c) && IsFalse(d) then n
    else W.Branch(W.On(FreshBool(UsedNames(c) + UsedNames(d) + SymNames(cond))), n, n')
  }

  function LinkNote(n: W.Annot, n': W.Annot, rd: Renaming, mod: seq<Id>, mm: Renaming): W.Annot
  {
    W.Compose(Renamed(n, MidNew(mod, mm)), Renamed(Renamed(n', rd), MidBase(mod, mm)))
  }

  function ComposeNotes(u1: Update, n1: Notes, u2: Update, n2: Notes): Notes
  {
    var mm := MidMap(u1, u2);
    var rd, rd' := DistinctMap(u2.tr, u1.tr), DistinctMap(u2.pre, u1.tr);
    Notes(LinkNote(n1.tr, n2.tr, rd, u1.mod, mm),
          OrNote(And(u1.pre, DiffFrame(u1.mod, u2.mod)), n1.pre,
                 Link(u1.tr, Rename(u2.pre, rd'), u1.mod, mm), LinkNote(n1.tr, n2.pre, rd', u1.mod, mm)))
  }

  function JoinNotes(u1: Update, n1: Notes, u2: Update, n2: Notes): Notes
  {
    var d12, d21 := DiffFrame(u1.mod, u2.mod), DiffFrame(u2.mod, u1.mod);
    Notes(OrNote(And(u1.tr, d12), n1.tr, And(u2.tr, d21), n2.tr),
          OrNote(And(u1.pre, d12), n1.pre, And(u2.pre, d21), n2.pre))
  }

  function IteNotes(cond: Expr, u1: Update, n1: Notes, u2: Update, n2: Notes): Notes
  {
    var d12, d21 := DiffFrame(u1.mod, u2.mod), DiffFrame(u2.mod, u1.mod);
    Notes(IteNote(cond, And(u1.tr, d12), n1.tr, And(u2.tr, d21), n2.tr),
          IteNote(cond, And(u1.pre, d12), n1.pre, And(u2.pre, d21), n2.pre))
  }

  function Negated(c: W.Cond): W.Cond
    requires !c.Off?
  {
    match c
    case Fixed(b) => W.Fixed(!b)
    case On(x) => W.Off(x)
  }

  /** The annotation of the join asks for the second part; this one asks for the first. */
  function SwappedNote(c: Clauses, n: W.Annot, d: Clauses, n': W.Annot): W.Annot
  {
    W.Branch(Negated(OrCond(c, d)), n, n')
  }

  function SwappedNotes(u1: Update, n1: Notes, u2: Update, n2: Notes): Notes
  {
    var d12, d21 := DiffFrame(u1.mod, u2.mod), DiffFrame(u2.mod, u1.mod);
    Notes(SwappedNote(And(u1.tr, d12), n1.tr, And(u2.tr, d21), n2.tr),
          SwappedNote(And(u1.pre, d12), n1.pre, And(u2.pre, d21), n2.pre))
  }

  function NotesOf(a: Action): Notes
    requires Core(a)
    decreases Size(a), 0
  {
    match a
    case Sequence(es) => SequenceNotes(es)
    case Choice(bs) => ChoiceNotes(bs)
    case If(c, thn, els) => IteNotes(c, IntUpdate(thn), NotesOf(thn), IntUpdate(els), NotesOf(els))
    case Local(xs, body) =>
      var u, n := IntUpdate(body), NotesOf(body);
      Notes(Renamed(n.tr, HideMap(xs, u.mod, u.tr)), Renamed(n.pre, HideMap(xs, u.mod, u.pre)))
    case BindOldsAction(inner) =>
      var u, n := IntUpdate(inner), NotesOf(inner);
      Notes(Renamed(n.tr, OldMap(u.tr)), Renamed(n.pre, OldMap(u.pre)))
    case IfSome(some, thn, els) =>
      CoreIfPart(some, thn, els);
      var p, q := IfPart(some, thn), ElsePart(some, els);
      SwappedNotes(IntUpdate(p), NotesOf(p), IntUpdate(q), NotesOf(q))
    case _ => NO_NOTES
  }

  function SequenceNotes(es: seq<Action>): Notes
    requires forall e :: e in es ==> Core(e)
    decreases SizeAll(es), 1
  {
    if es == [] then NO_NOTES else
    var n := |es| - 1;
    ComposeNotes(ComposeAll(es[..n]), SequenceNotes(es[..n]), IntUpdate(es[n]), NotesOf(es[n]))
  }

  function ChoiceNotes(bs: seq<Action>): Notes
    requires forall b :: b in bs ==> Core(b)
    decreases SizeAll(bs), 1
  {
    if bs == [] then NO_NOTES else
    var n := |bs| - 1;
    JoinNotes(JoinAll(bs[..n]), ChoiceNotes(bs[..n]), IntUpdate(bs[n]), NotesOf(bs[n]))
  }

  /** The action as the walker sees it. */
  function Shape(a: Action): W.Action
    decreases a, 1
  {
    match a
    case Sequence(es) => W.Seq(Shapes(es))
    case Choice(bs) => W.Choice(Shapes(bs))
    case If(_, thn, els) => W.If(false, Shape(thn), Some(Shape(els)))
    case Local(_, body) => W.Local(Shape(body))
    case IfSome(_, thn, els) => W.If(true, Shape(thn), Some(Shape(els)))
    case _ => W.Leaf(a)
  }

  function Shapes(es: seq<Action>): (r: seq<W.Action>)
    ensures |r| == |es| && forall k :: 0 <= k < |es| ==> r[k] == Shape(es[k])
    decreases es, 0
  {
    if es == [] then [] else Shapes(es[..|es| - 1]) + [Shape(es[|es| - 1])]
  }

  // ----- runs that tell what they pass -----

  /** What is told of the condition of "if some". */
  const ASSUMED := W.Handle(W.Leaf(Assume(Lit(1))))

  /** A run from s to t passes the actions in order. */
  ghost predicate Traced(a: Action, es: seq<W.Event>, o: State, s: State, t: State)
    decreases a, 0
  {
    match a
    case Sequence(steps) => TracedAll(steps, es, o, s, t)
    case Choice(bs) => exists k :: 0 <= k < |bs| && Traced(bs[k], es, o, s, t)
    case If(c, thn, els) => if CondHolds(c, o, s) then Traced(thn, es, o, s, t) else Traced(els, es, o, s, t)
    case Local(xs, body) =>
      SameOn(xs, s, t) && exists s1: State, t1: State ::
        SameOff(xs, s1, s) && SameOff(xs, t1, t) && Traced(body, es, o, s1, t1)
    case IfSome(some, thn, els) =>
      es != [] && es[0] == ASSUMED &&
      (|| (SameOn(some.params, s, t) && exists w: State, t1: State ::
             Picked(some, o, s, w) && SameOff(some.params, t1, t) && Traced(thn, es[1..], o, w, t1))
       || ((forall w: State :: !Witnesses(some, o, s, w)) && exists m: State ::
             Same(s, m) && Traced(els, es[1..], o, m, t)))
    case _ => es == [W.Handle(W.Leaf(a))] && Exec(a, o, s, t)
  }

  ghost predicate TracedAll(steps: seq<Action>, es: seq<W.Event>, o: State, s: State, t: State)
    decreases steps, 0
  {
    if steps == [] then es == [] && Same(s, t) else
    var n := |steps| - 1;
    exists m: State, x: seq<W.Event>, y: seq<W.Event> ::
      es == x + y && TracedAll(steps[..n], x, o, s, m) && Traced(steps[n], y, o, m, t)
  }

  /** A run from s passes the actions in order and fails in the last of them. */
  ghost predicate FailTraced(a: Action, es: seq<W.Event>, o: State, s: State)
    decreases a, 0
  {
    match a
    case Sequence(steps) => FailTracedAll(steps, es, o, s)
    case Choice(bs) => exists k :: 0 <= k < |bs| && FailTraced(bs[k], es, o, s)
    case If(c, thn, els) => if CondHolds(c, o, s) then FailTraced(thn, es, o, s) else FailTraced(els, es, o, s)
    case Local(xs, body) => exists s1: State :: SameOff(xs, s1, s) && FailTraced(body, es, o, s1)
    case IfSome(some, thn, els) =>
      es != [] && es[0] == ASSUMED &&
      (|| (exists w: State :: Picked(some, o, s, w) && FailTraced(thn, es[1..], o, w))
       || ((forall w: State :: !Witnesses(some, o, s, w)) && exists m: State ::
             Same(s, m) && FailTraced(els, es[1..], o, m)))
    case _ => es == [W.Handle(W.Leaf(a))] && Aborts(a, o, s)
  }

  ghost predicate FailTracedAll(steps: seq<Action>, es: seq<W.Event>, o: State, s: State)
    decreases steps, 0
  {
    if steps == [] then false else
    var n := |steps| - 1;
    || FailTracedAll(steps[..n], es, o, s)
    || exists m: State, x: seq<W.Event>, y: seq<W.Event> ::
         es == x + y && TracedAll(steps[..n], x, o, s, m) && FailTraced(steps[n], y, o, m)
  }

  /** What is traced is a run. */
  lemma {:induction false} TracedRuns(a: Action, es: seq<W.Event>, o: State, s: State, t: State)
    requires Traced(a, es, o, s, t)
    ensures Exec(a, o, s, t)
    decreases a, 1
  {
    hide CondHolds, SameOff, SameOn;
    match a
    case Sequence(steps) => TracedAllRuns(steps, es, o, s, t);
    case Choice(bs) =>
      var k :| 0 <= k < |bs| && Traced(bs[k], es, o, s, t);
      TracedRuns(bs[k], es, o, s, t);
    case If(c, thn, els) =>
      if CondHolds(c, o, s) { TracedRuns(thn, es, o, s, t); } else { TracedRuns(els, es, o, s, t); }
    case Local(xs, body) =>
      var s1: State, t1: State :| SameOff(xs, s1, s) && SameOff(xs, t1, t) && Traced(body, es, o, s1, t1);
      TracedRuns(body, es, o, s1, t1);
    case IfSome(_, _, _) => SomeTracedRuns(a, es, o, s, t);
    case _ =>
  }

  lemma {:induction false} SomeTracedRuns(a: Action, es: seq<W.Event>, o: State, s: State, t: State)
    requires a.IfSome? && Traced(a, es, o, s, t)
    ensures Exec(a, o, s, t)
    decreases a, 0
  {
    hide Exec, SameOff, SameOn, Picked, Witnesses;
    SomeIs(a.some, a.thn, a.els, o, s, t);
    if w: State, t1: State :|
      SameOn(a.some.params, s, t) && Picked(a.some, o, s, w) && SameOff(a.some.params, t1, t)
      && Traced(a.thn, es[1..], o, w, t1) {
      TracedRuns(a.thn, es[1..], o, w, t1);
    } else {
      var m: State :| Same(s, m) && Traced(a.els, es[1..], o, m, t);
      TracedRuns(a.els, es[1..], o, m, t);
      Eq.ExecSame(a.els, o, m, t, o, s, t);
    }
  }

  lemma {:induction false} TracedAllRuns(steps: seq<Action>, es: seq<W.Event>, o: State, s: State, t: State)
    requires TracedAll(steps, es, o, s, t)
    ensures ExecSeq(steps, o, s, t)
    decreases steps, 0
  {
    hide Exec, Traced;
    if steps != [] {
      var n := |steps| - 1;
      var m: State, x: seq<W.Event>, y: seq<W.Event> :|
        es == x + y && TracedAll(steps[..n], x, o, s, m) && Traced(steps[n], y, o, m, t);
      TracedAllRuns(steps[..n], x, o, s, m);
      TracedRuns(steps[n], y, o, m, t);
    }
  }

  lemma {:induction false} FailTracedAborts(a: Action, es: seq<W.Event>, o: State, s: State)
    requires FailTraced(a, es, o, s)
    ensures Aborts(a, o, s)
    decreases a, 1
  {
    hide CondHolds, SameOff;
    match a
    case Sequence(steps) => FailTracedAllAborts(steps, es, o, s);
    case Choice(bs) =>
      var k :| 0 <= k < |bs| && FailTraced(bs[k], es, o, s);
      FailTracedAborts(bs[k], es, o, s);
    case If(c, thn, els) =>
      if CondHolds(c, o, s) { FailTracedAborts(thn, es, o, s); } else { FailTracedAborts(els, es, o, s); }
    case Local(xs, body) =>
      var s1: State :| SameOff(xs, s1, s) && FailTraced(body, es, o, s1);
      FailTracedAborts(body, es, o, s1);
    case IfSome(_, _, _) => SomeTracedAborts(a, es, o, s);
    case _ =>
  }

  lemma {:induction false} SomeTracedAborts(a: Action, es: seq<W.Event>, o: State, s: State)
    requires a.IfSome? && FailTraced(a, es, o, s)
    ensures Aborts(a, o, s)
    decreases a, 0
  {
    hide Aborts, Picked, Witnesses;
    SomeIs(a.some, a.thn, a.els, o, s, s);
    if w: State :| Picked(a.some, o, s, w) && FailTraced(a.thn, es[1..], o, w) {
      FailTracedAborts(a.thn, es[1..], o, w);
    } else {
      var m: State :| Same(s, m) && FailTraced(a.els, es[1..], o, m);
      FailTracedAborts(a.els, es[1..], o, m);
      Eq.AbortsSame(a.els, o, m, o, s);
    }
  }

  lemma {:induction false} FailTracedAllAborts(steps: seq<Action>, es: seq<W.Event>, o: State, s: State)
    requires FailTracedAll(steps, es, o, s)
    ensures AbortsSeq(steps, o, s)
    decreases steps, 0
  {
    hide Exec, Aborts, Traced, FailTraced;
    if steps != [] {
      var n := |steps| - 1;
      if FailTracedAll(steps[..n], es, o, s) {
        FailTracedAllAborts(steps[..n], es, o, s);
      } else {
        var m: State, x: seq<W.Event>, y: seq<W.Event> :|
          es == x + y && TracedAll(steps[..n], x, o, s, m) && FailTraced(steps[n], y, o, m);
        TracedAllRuns(steps[..n], x, o, s, m);
        FailTracedAborts(steps[n], y, o, m);
      }
    }
  }

  // ----- the answers of a valuation -----

  /** The answers, looked up in the scope, are what the valuation says. */
  ghost predicate Reads(scope: Renaming, eval: Sym -> bool, v: Val)
  {
    forall x: Sym :: x.kind.Skolem? ==> eval(Lookup(scope, x)) == IsOn(x, v)
  }

  predicate Keeps(m: Renaming)
  {
    forall x :: x in m && x.kind.Skolem? ==> m[x].kind.Skolem?
  }

  /** Inside a renaming, the answers are those of the valuation read through it. */
  lemma ReadsRenamed(scope: Renaming, eval: Sym -> bool, v: Val, m: Renaming)
    requires Reads(scope, eval, v) && Keeps(m)
    ensures Reads(W.Entered(scope, m), eval, Pull(v, m))
  {
    forall x: Sym | x.kind.Skolem?
      ensures eval(Lookup(W.Entered(scope, m), x)) == IsOn(x, Pull(v, m))
    {
      W.EnteredGet(scope, m, x);
      assert Lookup(m, x).kind.Skolem?;
      assert Pull(v, m)(x) == v(Lookup(m, x));
    }
  }

  lemma ReadsSame(scope: Renaming, eval: Sym -> bool, v: Val, w: Val)
    requires Reads(scope, eval, v) && forall x: Sym :: x.kind.Skolem? ==> w(x) == v(x)
    ensures Reads(scope, eval, w)
  {
  }

  lemma DenoteRenamed(a: W.Action, n: W.Annot, m: Renaming, scope: Renaming, pos: int, stops: bool, eval: Sym -> bool,
                      mod: W.Callees)
    ensures W.Denote(a, Renamed(n, m), scope, pos, stops, eval, mod) ==
            W.Denote(a, n, W.Entered(scope, m), pos, stops, eval, mod)
  {
    hide W.Denote, W.Entered;
    if m == map[] { EnteredNothing(scope); } else { DenoteRename(a, n, m, scope, pos, stops, eval, mod); }
  }

  lemma EnteredNothing(scope: Renaming)
    ensures W.Entered(scope, map[]) == scope
  {
  }

  lemma DenoteRename(a: W.Action, n: W.Annot, m: Renaming, scope: Renaming, pos: int, stops: bool, eval: Sym -> bool,
                     mod: W.Callees)
    ensures W.Denote(a, W.Rename(n, m), scope, pos, stops, eval, mod) ==
            W.Denote(a, n, W.Entered(scope, m), pos, stops, eval, mod)
  {
    hide W.Entered, W.DenoteChoice, W.Ask;
  }

  lemma {:induction false} DenoteLeaf(a: Action, n: W.Annot, scope: Renaming, stops: bool, eval: Sym -> bool,
                                      mod: W.Callees)
    ensures var d := W.Denote(W.Leaf(a), n, scope, -1, stops, eval, mod);
            d.Some? && W.Events(d.value) == [W.Handle(W.Leaf(a))]
  {
    if n.Rename? { DenoteLeaf(a, n.arg, W.Entered(scope, n.m), stops, eval, mod); }
  }

  lemma {:induction false} DenoteLocal(b: W.Action, n: W.Annot, scope: Renaming, stops: bool, eval: Sym -> bool,
                                       mod: W.Callees)
    ensures W.Denote(W.Local(b), n, scope, -1, stops, eval, mod) == W.Denote(b, n, scope, -1, stops, eval, mod)
  {
    if n.Rename? { DenoteLocal(b, n.arg, W.Entered(scope, n.m), stops, eval, mod); }
  }

  // ----- valuations of the parts -----

  /** The valuation is one of the transition formula from s to t. */
  ghost predicate Moves(u: Update, v: Val, o: State, s: State, t: State)
  {
    Holds(u.tr, v) && SameProgram(Mk(o, s, t), v) && forall i: Id :: i !in u.mod ==> t(i) == s(i)
  }

  /** The valuation is one of the failing condition in s. */
  ghost predicate Breaks(u: Update, v: Val, o: State, s: State, t: State)
  {
    Holds(u.pre, v) && SameProgram(Mk(o, s, t), v)
  }

  lemma MovesRel(u: Update, v: Val, o: State, s: State, t: State)
    requires Moves(u, v, o, s, t)
    ensures Rel(u, o, s, t)
  {
    hide Holds;
  }

  lemma BreaksFails(u: Update, v: Val, o: State, s: State, t: State)
    requires Breaks(u, v, o, s, t)
    ensures Fails(u, o, s)
  {
    hide Holds;
    assert Ex(u.pre, Mk(o, s, t));
  }

  lemma OrTaken(c: Clauses, d: Clauses, v: Val, scope: Renaming, eval: Sym -> bool)
    requires Holds(Or(c, d), v) && Reads(scope, eval, v)
    ensures Holds(if W.Ask(eval, scope, OrCond(c, d)) then d else c, v)
  {
    hide Holds, IsFalse;
    if !IsFalse(c) && !IsFalse(d) {
      var a := FreshBool(UsedNames(c) + UsedNames(d));
      var b := FreshBool(UsedNames(c) + UsedNames(d) + {Spell(a)});
      BranchMeaning(a, c, b, d, v);
      assert eval(Lookup(scope, b)) == IsOn(b, v);
    } else if IsFalse(c) && IsFalse(d) {
      IsFalseMeaning(BOT, v);
      assert false;
    }
  }

  lemma IteTaken(cond: Expr, c: Clauses, d: Clauses, v: Val, scope: Renaming, eval: Sym -> bool, n: W.Annot,
                 n': W.Annot)
    requires Holds(IteClauses(cond, c, d), v) && ClosedCond(cond) && Reads(scope, eval, v)
    ensures var r := IteNote(cond, c, n, d, n');
            && r.Branch? && r.thn == n && r.els == n'
            && W.Ask(eval, scope, r.cond) == (Eval(cond, v, map[]) != 0)
            && Holds(if Eval(cond, v, map[]) != 0 then c else d, v)
  {
    hide Holds, IsFalse, Eval;
    if IsFalse(c) && IsFalse(d) {
      IsFalseMeaning(c, v);
      assert false;
    } else {
      var a := FreshBool(UsedNames(c) + UsedNames(d) + SymNames(cond));
      GuardedMeaning(a, cond, c, d, v);
      assert eval(Lookup(scope, a)) == IsOn(a, v);
    }
  }

  lemma FrameSplit(c: Clauses, a: seq<Id>, b: seq<Id>, v: Val, o: State, s: State, t: State)
    requires Holds(And(c, DiffFrame(a, b)), v) && SameProgram(Mk(o, s, t), v)
    ensures Holds(c, v) && forall i :: i in b && i !in a ==> t(i) == s(i)
  {
    hide Holds, Frames;
    var ids := Select(b, a, false);
    AndMeaning(c, Frames(ids), v);
    FramesMeaning(ids, v);
    forall i | i in b && i !in a
      ensures t(i) == s(i)
    {
      ProgramValue(o, s, t, v, NewSym(i));
      ProgramValue(o, s, t, v, BaseSym(i));
      assert i in ids;
    }
  }

  /** A valuation of hidden clauses is one of the clauses between states that differ in the hidden symbols. */
  lemma HideSplit(xs: seq<Id>, mod: seq<Id>, c: Clauses, m: Renaming, v: Val, o: State, s: State, t: State)
    returns (s1: State, t1: State, w: Val)
    requires NewOnly(c, mod) && (forall x :: x in m <==> x.id in xs && (x.kind.Base? || (x.kind.New? && x.id in mod)))
    requires Holds(Rename(c, m), v) && SameProgram(Mk(o, s, t), v)
    ensures Holds(c, w) && SameProgram(Mk(o, s1, t1), w) && SameOff(xs, s1, s)
    ensures forall i :: i !in mod ==> t1(i) == s1(i)
    ensures forall i :: i in mod && i !in xs ==> t1(i) == t(i)
    ensures forall x: Sym :: x.kind.Skolem? ==> w(x) == Pull(v, m)(x)
  {
    hide Holds, Used;
    var p := Pull(v, m);
    RenameMeaning(c, m, v);
    s1, t1 := Before(p), After(mod, p);
    forall i: Id
      ensures i !in xs ==> p(BaseSym(i)) == s(i) && p(NewSym(i)) == t(i)
      ensures p(OldSym(i)) == o(i)
    {
      UnhiddenValue(m, v, o, s, t, BaseSym(i));
      UnhiddenValue(m, v, o, s, t, NewSym(i));
      UnhiddenValue(m, v, o, s, t, OldSym(i));
    }
    forall x | x in Used(c) && Program(x)
      ensures p(x) == Mk(o, s1, t1)(x)
    {
      assert x == BaseSym(x.id) || x == NewSym(x.id) || x == OldSym(x.id);
    }
    SettledHolds(c, o, s1, t1, p);
    w := Settled(o, s1, t1, p);
  }

  lemma UnhiddenValue(m: Renaming, v: Val, o: State, s: State, t: State, x: Sym)
    requires SameProgram(Mk(o, s, t), v) && Program(x)
    ensures x !in m ==> Pull(v, m)(x) == Mk(o, s, t)(x)
    ensures Mk(o, s, t)(x) == if x.kind.Old? then o(x.id) else if x.kind.New? then t(x.id) else s(x.id)
  {
    MkIs(o, s, t, x);
    ProgramValue(o, s, t, v, x);
    if x !in m { LookupOut(m, x); }
  }

  // ----- reading a transition back -----

  /** The annotation, read with these answers, tells a run of the action from s to t. */
  ghost predicate Tells(a: Action, n: W.Annot, scope: Renaming, eval: Sym -> bool, mod: W.Callees,
                        o: State, s: State, t: State)
  {
    var d := W.Denote(Shape(a), n, scope, -1, false, eval, mod);
    d.Some? && Traced(a, W.Events(d.value), o, s, t)
  }

  ghost predicate TellsFirst(es: seq<Action>, p: nat, n: W.Annot, scope: Renaming, eval: Sym -> bool, mod: W.Callees,
                             o: State, s: State, t: State)
    requires p <= |es|
  {
    var d := W.Denote(W.Seq(Shapes(es)), n, scope, p, false, eval, mod);
    d.Some? && TracedAll(es[..p], W.Events(d.value), o, s, t)
  }

  ghost predicate TellsFailure(a: Action, n: W.Annot, scope: Renaming, eval: Sym -> bool, mod: W.Callees, o: State,
                               s: State)
  {
    var d := W.Denote(Shape(a), n, scope, -1, true, eval, mod);
    d.Some? && FailTraced(a, W.Events(d.value), o, s)
  }

  ghost predicate TellsFirstFailure(es: seq<Action>, p: nat, n: W.Annot, scope: Renaming, eval: Sym -> bool,
                                    mod: W.Callees, o: State, s: State)
    requires p <= |es|
  {
    var d := W.Denote(W.Seq(Shapes(es)), n, scope, p, true, eval, mod);
    d.Some? && FailTracedAll(es[..p], W.Events(d.value), o, s)
  }

  lemma UpdateFormed(a: Action)
    requires Core(a)
    ensures WellFormed(IntUpdate(a))
  {
    hide Core, IntUpdate;
    CompilerCorrect(a);
  }

  lemma SequenceFormed(es: seq<Action>)
    requires forall e :: e in es ==> Core(e)
    ensures WellFormed(ComposeAll(es))
  {
    hide Core, ComposeAll;
    ComposeAllCorrect(es);
  }

  lemma FairRenamed(n: W.Annot, m: Renaming, scope: Renaming, eval: Sym -> bool)
    ensures W.Fair(Renamed(n, m), scope, eval) <==> W.Fair(n, W.Entered(scope, m), eval)
  {
    hide W.Ask;
    if m == map[] { EnteredNothing(scope); }
  }

  lemma FairLink(n: W.Annot, n': W.Annot, rd: Renaming, mod: seq<Id>, mm: Renaming, scope: Renaming, eval: Sym -> bool)
    requires W.Fair(LinkNote(n, n', rd, mod, mm), scope, eval)
    ensures W.Fair(n, W.Entered(scope, MidNew(mod, mm)), eval)
    ensures W.Fair(n', W.Entered(W.Entered(scope, MidBase(mod, mm)), rd), eval)
  {
    hide Renamed, MidNew, MidBase, W.Entered;
    FairRenamed(n, MidNew(mod, mm), scope, eval);
    FairRenamed(Renamed(n', rd), MidBase(mod, mm), scope, eval);
    FairRenamed(n', rd, W.Entered(scope, MidBase(mod, mm)), eval);
  }

  lemma FairBranch(n: W.Annot, scope: Renaming, eval: Sym -> bool)
    requires n.Branch? && W.Fair(n, scope, eval)
    ensures W.Fair(if W.Ask(eval, scope, n.cond) then n.thn else n.els, scope, eval)
    ensures n.cond.Off? ==> eval(n.cond.x) == eval(Lookup(scope, n.cond.x))
  {
  }

  /** The swapped annotation, where negated flags are answered like flags, leads to the part that was taken. */
  lemma FairSwapped(c: Clauses, n: W.Annot, d: Clauses, n': W.Annot, scope: Renaming, eval: Sym -> bool)
    requires W.Fair(SwappedNote(c, n, d, n'), scope, eval)
    ensures W.Ask(eval, scope, Negated(OrCond(c, d))) == !W.Ask(eval, scope, OrCond(c, d))
    ensures W.Fair(if W.Ask(eval, scope, OrCond(c, d)) then n' else n, scope, eval)
  {
    assert !OrCond(c, d).Off?;
    hide OrCond;
    FairBranch(SwappedNote(c, n, d, n'), scope, eval);
  }

  /** Every valuation of the transition formula, read through its annotation, tells a run, if the negated flags are
      answered like the flags. */
  lemma {:induction false} TransitionTold(a: Action, v: Val, o: State, s: State, t: State,
                                          scope: Renaming, eval: Sym -> bool, mod: W.Callees)
    requires Core(a) && Moves(IntUpdate(a), v, o, s, t) && Reads(scope, eval, v)
    requires W.Fair(NotesOf(a).tr, scope, eval)
    ensures Tells(a, NotesOf(a).tr, scope, eval, mod, o, s, t)
    decreases Size(a), 3
  {
    hide Moves, Tells, W.Fair, Reads, NotesOf;
    match a
    case Sequence(es) => WholeTold(a, v, o, s, t, scope, eval, mod);
    case Choice(_) => ChoiceTold(a, v, o, s, t, scope, eval, mod);
    case If(_, _, _) => IfTold(a, v, o, s, t, scope, eval, mod);
    case Local(_, _) => LocalTold(a, v, o, s, t, scope, eval, mod);
    case IfSome(_, _, _) => IfSomeTold(a, v, o, s, t, scope, eval, mod);
    case _ => LeafTold(a, v, o, s, t, scope, eval, mod);
  }

  predicate Leaf(a: Action)
  {
    !a.Sequence? && !a.Choice? && !a.If? && !a.Local? && !a.IfSome?
  }

  lemma LeafTold(a: Action, v: Val, o: State, s: State, t: State, scope: Renaming, eval: Sym -> bool, mod: W.Callees)
    requires Leaf(a) && Core(a) && Moves(IntUpdate(a), v, o, s, t)
    ensures Tells(a, NotesOf(a).tr, scope, eval, mod, o, s, t)
  {
    hide Moves, Core, IntUpdate, NotesOf, Exec, W.Denote;
    MovesRel(IntUpdate(a), v, o, s, t);
    CompilerCorrect(a);
    DenoteLeaf(a, NotesOf(a).tr, scope, false, eval, mod);
  }

  /** The annotation and the parts of a conditional. */
  lemma {:induction false} IfTold(a: Action, v: Val, o: State, s: State, t: State,
                                  scope: Renaming, eval: Sym -> bool, mod: W.Callees)
    requires a.If? && Core(a) && Moves(IntUpdate(a), v, o, s, t) && Reads(scope, eval, v)
    requires W.Fair(NotesOf(a).tr, scope, eval)
    ensures Tells(a, NotesOf(a).tr, scope, eval, mod, o, s, t)
    decreases Size(a), 2
  {
    hide W.Fair, Reads, IteClauses, And, DiffFrame, Holds, Eval, ClosedCond, CondHolds, IteNote;
    var u1, u2 := IntUpdate(a.thn), IntUpdate(a.els);
    var n1, n2 := NotesOf(a.thn).tr, NotesOf(a.els).tr;
    var d12, d21 := DiffFrame(u1.mod, u2.mod), DiffFrame(u2.mod, u1.mod);
    CondClosed(a.cond);
    IteTaken(a.cond, And(u1.tr, d12), And(u2.tr, d21), v, scope, eval, n1, n2);
    FairBranch(NotesOf(a).tr, scope, eval);
    CondRead(a.cond, v, o, s, t);
    if CondHolds(a.cond, o, s) {
      FrameSplit(u1.tr, u1.mod, u2.mod, v, o, s, t);
      TransitionTold(a.thn, v, o, s, t, scope, eval, mod);
    } else {
      FrameSplit(u2.tr, u2.mod, u1.mod, v, o, s, t);
      TransitionTold(a.els, v, o, s, t, scope, eval, mod);
    }
  }

  lemma CondRead(cond: Expr, v: Val, o: State, s: State, t: State)
    requires StateCond(cond) && SameProgram(Mk(o, s, t), v)
    ensures Eval(cond, v, map[]) != 0 <==> CondHolds(cond, o, s)
  {
    CondAt(cond, o, s, t);
    EvalCoincide(cond, v, Mk(o, s, t), map[]);
  }

  lemma {:induction false} LocalTold(a: Action, v: Val, o: State, s: State, t: State,
                                     scope: Renaming, eval: Sym -> bool, mod: W.Callees)
    requires a.Local? && Core(a) && Moves(IntUpdate(a), v, o, s, t) && Reads(scope, eval, v)
    requires W.Fair(NotesOf(a).tr, scope, eval)
    ensures Tells(a, NotesOf(a).tr, scope, eval, mod, o, s, t)
    decreases Size(a), 2
  {
    hide W.Fair, Reads, Holds, Rename, HideMap, NewOnly, W.Entered, W.Denote, Renamed;
    var u := IntUpdate(a.body);
    UpdateFormed(a.body);
    var m := HideMap(a.xs, u.mod, u.tr);
    var s1, t1, w := HideSplit(a.xs, u.mod, u.tr, m, v, o, s, t);
    FairRenamed(NotesOf(a.body).tr, m, scope, eval);
    ReadsRenamed(scope, eval, v, m);
    ReadsSame(W.Entered(scope, m), eval, Pull(v, m), w);
    TransitionTold(a.body, w, o, s1, t1, W.Entered(scope, m), eval, mod);
    DenoteRenamed(Shape(a.body), NotesOf(a.body).tr, m, scope, -1, false, eval, mod);
    DenoteLocal(Shape(a.body), NotesOf(a).tr, scope, false, eval, mod);
    assert SameOff(a.xs, t1, t) && SameOn(a.xs, s, t);
  }

  lemma WholeTold(a: Action, v: Val, o: State, s: State, t: State, scope: Renaming, eval: Sym -> bool, mod: W.Callees)
    requires a.Sequence? && Core(a) && Moves(IntUpdate(a), v, o, s, t) && Reads(scope, eval, v)
    requires W.Fair(NotesOf(a).tr, scope, eval)
    ensures Tells(a, NotesOf(a).tr, scope, eval, mod, o, s, t)
    decreases Size(a), 2
  {
    hide Moves, W.Fair, Reads, Core, SequenceNotes, ComposeAll, W.Denote, TracedAll;
    var es := a.elems;
    CoreMembers(a);
    assert es[..|es|] == es;
    SequenceTold(es, |es|, v, o, s, t, scope, eval, mod);
    DenoteWhole(Shapes(es), SequenceNotes(es).tr, scope, false, eval, mod);
  }

  lemma CoreMembers(a: Action)
    requires Core(a)
    ensures a.Sequence? ==> (forall e :: e in a.elems ==> Core(e)) && IntUpdate(a) == ComposeAll(a.elems)
    ensures a.Choice? ==> (forall b :: b in a.branches ==> Core(b)) && IntUpdate(a) == JoinAll(a.branches)
  {
  }

  lemma {:induction false} DenoteWhole(es: seq<W.Action>, n: W.Annot, scope: Renaming, stops: bool, eval: Sym -> bool,
                                       mod: W.Callees)
    ensures W.Denote(W.Seq(es), n, scope, -1, stops, eval, mod) == W.Denote(W.Seq(es), n, scope, |es|, stops, eval, mod)
  {
    if n.Rename? { DenoteWhole(es, n.arg, W.Entered(scope, n.m), stops, eval, mod); }
  }

  lemma DistinctKeeps(c: Clauses, d: Clauses)
    ensures Keeps(DistinctMap(c, d))
  {
  }

  lemma MidKeeps(mod: seq<Id>, mm: Renaming)
    ensures Keeps(MidNew(mod, mm)) && Keeps(MidBase(mod, mm))
  {
  }

  /** The answers inside the two halves of a composition. */
  lemma LinkReads(scope: Renaming, eval: Sym -> bool, v: Val, rd: Renaming, mod: seq<Id>, mm: Renaming, w1: Val,
                  w2: Val)
    requires Reads(scope, eval, v) && Keeps(rd)
    requires forall x: Sym :: !Program(x) ==> w1(x) == Pull(v, MidNew(mod, mm))(x)
    requires w2 == Pull(Pull(v, MidBase(mod, mm)), rd)
    ensures Reads(W.Entered(scope, MidNew(mod, mm)), eval, w1)
    ensures Reads(W.Entered(W.Entered(scope, MidBase(mod, mm)), rd), eval, w2)
  {
    hide Reads, Keeps, Pull, MidNew, MidBase, W.Entered;
    MidKeeps(mod, mm);
    ReadsRenamed(scope, eval, v, MidNew(mod, mm));
    ReadsSame(W.Entered(scope, MidNew(mod, mm)), eval, Pull(v, MidNew(mod, mm)), w1);
    ReadsRenamed(scope, eval, v, MidBase(mod, mm));
    ReadsRenamed(W.Entered(scope, MidBase(mod, mm)), eval, Pull(v, MidBase(mod, mm)), rd);
  }

  /** A link denotes what its halves denote, one after the other. */
  lemma LinkDenotes(es: seq<W.Action>, p: nat, n: W.Annot, n': W.Annot, rd: Renaming, mod: seq<Id>, mm: Renaming,
                    scope: Renaming, stops: bool, eval: Sym -> bool, callees: W.Callees)
    requires p < |es|
    ensures var r := W.Denote(W.Seq(es), n, W.Entered(scope, MidNew(mod, mm)), p, false, eval, callees);
            var q := W.Denote(es[p], n', W.Entered(W.Entered(scope, MidBase(mod, mm)), rd), -1, stops, eval, callees);
            W.Denote(W.Seq(es), LinkNote(n, n', rd, mod, mm), scope, p + 1, stops, eval, callees) ==
            if r.Some? && q.Some? then Some(r.value + q.value) else None
  {
    hide W.Denote, MidNew, MidBase, Renamed, W.Entered;
    W.DenoteStep(W.Seq(es), LinkNote(n, n', rd, mod, mm), scope, p + 1, stops, eval, callees);
    DenoteRenamed(W.Seq(es), n, MidNew(mod, mm), scope, p, false, eval, callees);
    DenoteRenamed(es[p], Renamed(n', rd), MidBase(mod, mm), scope, -1, stops, eval, callees);
    DenoteRenamed(es[p], n', rd, W.Entered(scope, MidBase(mod, mm)), -1, stops, eval, callees);
  }

  lemma ComposeUpdateIs(es: seq<Action>, p: nat)
    requires p < |es| && forall e :: e in es ==> Core(e)
    ensures ComposeAll(es[..p + 1]) == Compose(ComposeAll(es[..p]), IntUpdate(es[p]))
    ensures SequenceNotes(es[..p + 1]) ==
            ComposeNotes(ComposeAll(es[..p]), SequenceNotes(es[..p]), IntUpdate(es[p]), NotesOf(es[p]))
  {
    hide Compose, ComposeNotes, IntUpdate, NotesOf;
    assert es[..p + 1][..p] == es[..p] && es[..p + 1][p] == es[p];
  }

  lemma {:induction false} SequenceTold(es: seq<Action>, p: nat, v: Val, o: State, s: State, t: State,
                                        scope: Renaming, eval: Sym -> bool, callees: W.Callees)
    requires p <= |es| && (forall e :: e in es ==> Core(e))
    requires Moves(ComposeAll(es[..p]), v, o, s, t) && Reads(scope, eval, v)
    requires W.Fair(SequenceNotes(es[..p]).tr, scope, eval)
    ensures TellsFirst(es, p, SequenceNotes(es[..p]).tr, scope, eval, callees, o, s, t)
    decreases SizeAll(es), 4, p
  {
    hide Core, W.Fair, Reads, Moves, IntUpdate, NotesOf, Tells, TellsFirst;
    if p == 0 {
      NothingTold(es, v, o, s, t, scope, eval, callees);
    } else {
      var k := p - 1;
      var u1, u2 := ComposeAll(es[..k]), IntUpdate(es[k]);
      ComposeUpdateIs(es, k);
      SequenceFormed(es[..k]);
      var m, w1, w2 := ComposeMoves(u1, u2, v, o, s, t);
      var rd, mm := DistinctMap(u2.tr, u1.tr), MidMap(u1, u2);
      DistinctKeeps(u2.tr, u1.tr);
      LinkReads(scope, eval, v, rd, u1.mod, mm, w1, w2);
      FairLink(SequenceNotes(es[..k]).tr, NotesOf(es[k]).tr, rd, u1.mod, mm, scope, eval);
      SizeMember(es, k);
      SequenceTold(es, k, w1, o, s, m, W.Entered(scope, MidNew(u1.mod, mm)), eval, callees);
      TransitionTold(es[k], w2, o, m, t, W.Entered(W.Entered(scope, MidBase(u1.mod, mm)), rd), eval, callees);
      StepTold(es, k, SequenceNotes(es[..k]).tr, NotesOf(es[k]).tr, rd, u1.mod, mm, o, s, m, t, scope, eval, callees);
    }
  }

  lemma NothingTold(es: seq<Action>, v: Val, o: State, s: State, t: State,
                    scope: Renaming, eval: Sym -> bool, callees: W.Callees)
    requires Moves(NullUpdate(), v, o, s, t)
    ensures TellsFirst(es, 0, W.Empty, scope, eval, callees, o, s, t)
  {
    assert es[..0] == [];
  }

  /** A valuation of a composition is one of each update. */
  lemma ComposeMoves(u1: Update, u2: Update, v: Val, o: State, s: State, t: State) returns (m: State, w1: Val, w2: Val)
    requires WellFormed(u1) && Moves(Compose(u1, u2), v, o, s, t)
    ensures Moves(u1, w1, o, s, m) && Moves(u2, w2, o, m, t)
    ensures forall x: Sym :: !Program(x) ==> w1(x) == Pull(v, MidNew(u1.mod, MidMap(u1, u2)))(x)
    ensures w2 == Pull(Pull(v, MidBase(u1.mod, MidMap(u1, u2))), DistinctMap(u2.tr, u1.tr))
  {
    hide Link, NewOnly, NoRigid, Apart, Or, Holds, SameProgram, Used, Pull, MidNew, MidBase;
    var mm := MidMap(u1, u2);
    ApartFrom(mm, UsedNames(u1.tr));
    m, w1, w2 := LinkSplit(u1.tr, u2.tr, DistinctMap(u2.tr, u1.tr), mm, u1.mod, o, s, t, v);
  }

  lemma StepTold(es: seq<Action>, k: nat, n: W.Annot, n': W.Annot, rd: Renaming, mod: seq<Id>, mm: Renaming,
                 o: State, s: State, m: State, t: State, scope: Renaming, eval: Sym -> bool, callees: W.Callees)
    requires k < |es|
    requires TellsFirst(es, k, n, W.Entered(scope, MidNew(mod, mm)), eval, callees, o, s, m)
    requires Tells(es[k], n', W.Entered(W.Entered(scope, MidBase(mod, mm)), rd), eval, callees, o, m, t)
    ensures TellsFirst(es, k + 1, LinkNote(n, n', rd, mod, mm), scope, eval, callees, o, s, t)
  {
    hide W.Denote, MidNew, MidBase, W.Entered, LinkNote, Traced;
    LinkDenotes(Shapes(es), k, n, n', rd, mod, mm, scope, false, eval, callees);
    W.EventsBoth(W.Denote(W.Seq(Shapes(es)), n, W.Entered(scope, MidNew(mod, mm)), k, false, eval, callees).value,
                 W.Denote(Shape(es[k]), n', W.Entered(W.Entered(scope, MidBase(mod, mm)), rd), -1, false, eval,
                          callees).value);
    assert es[..k + 1][..k] == es[..k] && es[..k + 1][k] == es[k];
  }

  // ----- choices -----

  lemma {:induction false} ChoiceArms(bs: seq<Action>)
    requires forall b :: b in bs ==> Core(b)
    ensures W.Arms(ChoiceNotes(bs).tr) == |bs| && W.Arms(ChoiceNotes(bs).pre) == |bs|
    ensures bs != [] ==> ChoiceNotes(bs).tr.Branch? && ChoiceNotes(bs).pre.Branch?
  {
    hide Core, JoinAll, IntUpdate, NotesOf, OrCond;
    if bs != [] { ChoiceArms(bs[..|bs| - 1]); }
  }

  /** Some branch's run is told. */
  ghost predicate TellsSome(bs: seq<Action>, n: W.Annot, scope: Renaming, eval: Sym -> bool, mod: W.Callees,
                            o: State, s: State, t: State)
  {
    && W.Arms(n) == |bs|
    && var d := W.DenoteChoice(Shapes(bs), n, scope, false, eval, mod);
       d.Some? && exists k :: 0 <= k < |bs| && Traced(bs[k], W.Events(d.value), o, s, t)
  }

  ghost predicate TellsSomeFailure(bs: seq<Action>, n: W.Annot, scope: Renaming, eval: Sym -> bool, mod: W.Callees,
                                   o: State, s: State)
  {
    && W.Arms(n) == |bs|
    && var d := W.DenoteChoice(Shapes(bs), n, scope, true, eval, mod);
       d.Some? && exists k :: 0 <= k < |bs| && FailTraced(bs[k], W.Events(d.value), o, s)
  }

  lemma ChoiceTold(a: Action, v: Val, o: State, s: State, t: State, scope: Renaming, eval: Sym -> bool, mod: W.Callees)
    requires a.Choice? && Core(a) && Moves(IntUpdate(a), v, o, s, t) && Reads(scope, eval, v)
    requires W.Fair(NotesOf(a).tr, scope, eval)
    ensures Tells(a, NotesOf(a).tr, scope, eval, mod, o, s, t)
    decreases Size(a), 2
  {
    hide Moves, W.Fair, Reads, Core, ChoiceNotes, JoinAll, W.DenoteChoice, W.Arms;
    var bs := a.branches;
    CoreMembers(a);
    if bs == [] {
      NoBranchMoves(v, o, s, t);
    } else {
      ChoiceArms(bs);
      SomeTold(bs, v, o, s, t, scope, eval, mod);
    }
  }

  lemma NoBranchMoves(v: Val, o: State, s: State, t: State)
    ensures !Moves(JoinAll([]), v, o, s, t) && !Breaks(JoinAll([]), v, o, s, t)
  {
  }

  lemma JoinUpdateIs(bs: seq<Action>)
    requires bs != [] && forall b :: b in bs ==> Core(b)
    ensures var n := |bs| - 1;
            && JoinAll(bs) == Join(JoinAll(bs[..n]), IntUpdate(bs[n]))
            && ChoiceNotes(bs) == JoinNotes(JoinAll(bs[..n]), ChoiceNotes(bs[..n]), IntUpdate(bs[n]), NotesOf(bs[n]))
  {
    hide Join, JoinNotes, IntUpdate, NotesOf;
  }

  /** A valuation of a choice is one of a branch, and the answers tell which. */
  lemma JoinMoves(u1: Update, u2: Update, v: Val, o: State, s: State, t: State, scope: Renaming, eval: Sym -> bool)
    requires Moves(Join(u1, u2), v, o, s, t) && Reads(scope, eval, v)
    ensures var c, d := And(u1.tr, DiffFrame(u1.mod, u2.mod)), And(u2.tr, DiffFrame(u2.mod, u1.mod));
            Moves(if W.Ask(eval, scope, OrCond(c, d)) then u2 else u1, v, o, s, t)
  {
    hide Reads, DiffFrame, And, Or, Holds, OrCond, SameProgram;
    var c, d := And(u1.tr, DiffFrame(u1.mod, u2.mod)), And(u2.tr, DiffFrame(u2.mod, u1.mod));
    OrTaken(c, d, v, scope, eval);
    if W.Ask(eval, scope, OrCond(c, d)) {
      FrameSplit(u2.tr, u2.mod, u1.mod, v, o, s, t);
    } else {
      FrameSplit(u1.tr, u1.mod, u2.mod, v, o, s, t);
    }
  }

  lemma JoinBreaks(u1: Update, u2: Update, v: Val, o: State, s: State, t: State, scope: Renaming, eval: Sym -> bool)
    requires Breaks(Join(u1, u2), v, o, s, t) && Reads(scope, eval, v)
    ensures var c, d := And(u1.pre, DiffFrame(u1.mod, u2.mod)), And(u2.pre, DiffFrame(u2.mod, u1.mod));
            Breaks(if W.Ask(eval, scope, OrCond(c, d)) then u2 else u1, v, o, s, t)
  {
    hide Reads, DiffFrame, And, Or, Holds, OrCond, SameProgram;
    var c, d := And(u1.pre, DiffFrame(u1.mod, u2.mod)), And(u2.pre, DiffFrame(u2.mod, u1.mod));
    OrTaken(c, d, v, scope, eval);
    if W.Ask(eval, scope, OrCond(c, d)) {
      FrameSplit(u2.pre, u2.mod, u1.mod, v, o, s, t);
    } else {
      FrameSplit(u1.pre, u1.mod, u2.mod, v, o, s, t);
    }
  }

  lemma PickTold(bs: seq<Action>, cond: W.Cond, last: W.Annot, before: W.Annot, o: State, s: State, t: State,
                 scope: Renaming, eval: Sym -> bool, mod: W.Callees)
    requires bs != [] && W.Arms(before) == |bs| - 1
    requires if W.Ask(eval, scope, cond) then Tells(bs[|bs| - 1], last, scope, eval, mod, o, s, t)
             else TellsSome(bs[..|bs| - 1], before, scope, eval, mod, o, s, t)
    ensures TellsSome(bs, W.Branch(cond, last, before), scope, eval, mod, o, s, t)
  {
    hide W.Denote, Traced;
    assert Shapes(bs)[..|bs| - 1] == Shapes(bs[..|bs| - 1]);
  }

  lemma {:induction false} SomeTold(bs: seq<Action>, v: Val, o: State, s: State, t: State,
                                    scope: Renaming, eval: Sym -> bool, mod: W.Callees)
    requires (forall b :: b in bs ==> Core(b)) && Moves(JoinAll(bs), v, o, s, t) && Reads(scope, eval, v)
    requires W.Fair(ChoiceNotes(bs).tr, scope, eval)
    ensures TellsSome(bs, ChoiceNotes(bs).tr, scope, eval, mod, o, s, t)
    decreases SizeAll(bs), 4, 0
  {
    hide Core, W.Fair, Reads, Moves, IntUpdate, NotesOf, DiffFrame, And, OrCond, W.Arms, Tells, TellsSome, Join;
    if bs == [] {
      NoBranchMoves(v, o, s, t);
    } else {
      var n := |bs| - 1;
      JoinUpdateIs(bs);
      ChoiceArms(bs[..n]);
      var u1, u2 := JoinAll(bs[..n]), IntUpdate(bs[n]);
      hide JoinAll, ChoiceNotes;
      var c, d := And(u1.tr, DiffFrame(u1.mod, u2.mod)), And(u2.tr, DiffFrame(u2.mod, u1.mod));
      FairBranch(ChoiceNotes(bs).tr, scope, eval);
      JoinMoves(u1, u2, v, o, s, t, scope, eval);
      if W.Ask(eval, scope, OrCond(c, d)) {
        TransitionTold(bs[n], v, o, s, t, scope, eval, mod);
      } else {
        SomeTold(bs[..n], v, o, s, t, scope, eval, mod);
      }
      PickTold(bs, OrCond(c, d), NotesOf(bs[n]).tr, ChoiceNotes(bs[..n]).tr, o, s, t, scope, eval, mod);
    }
  }

  // ----- if some -----

  function SwapFirst(log: seq<W.Told>, e: W.Event): seq<W.Told>
  {
    if log == [] then [] else [log[0].(event := e)] + log[1..]
  }

  /** An action behind one of two atomic actions is told alike, except for which of these comes first. */
  lemma {:induction false} DenoteBehind(a: Action, a': Action, b: W.Action, n: W.Annot, scope: Renaming, pos: int,
                                        stops: bool, eval: Sym -> bool, mod: W.Callees)
    ensures var d := W.Denote(W.Seq([W.Leaf(a), b]), n, scope, pos, stops, eval, mod);
            var d' := W.Denote(W.Seq([W.Leaf(a'), b]), n, scope, pos, stops, eval, mod);
            && (d'.Some? <==> d.Some?)
            && (d.Some? ==> d'.value == SwapFirst(d.value, W.Handle(W.Leaf(a'))))
            && (d.Some? && !stops ==> (d.value == [] <==> W.Position(W.Seq([W.Leaf(a), b]), pos) == 0))
    decreases W.Size(n)
  {
    hide W.Ask, W.Entered;
    var s, s' := W.Seq([W.Leaf(a), b]), W.Seq([W.Leaf(a'), b]);
    if n.Rename? {
      DenoteBehind(a, a', b, n.arg, W.Entered(scope, n.m), pos, stops, eval, mod);
    } else {
      var p := W.Position(s, pos);
      if p > 0 && n.Branch? && stops {
        if W.Ask(eval, scope, n.cond) {
          DenoteBehind(a, a', b, n.thn, scope, p, stops, eval, mod);
        } else {
          DenoteBehind(a, a', b, n.els, scope, p - 1, stops, eval, mod);
        }
      } else if p > 0 && n.Compose? {
        DenoteBehind(a, a', b, n.left, scope, p - 1, false, eval, mod);
        BehindStep(a, a', b, n, scope, pos, stops, eval, mod);
      }
    }
  }

  lemma BehindStep(a: Action, a': Action, b: W.Action, n: W.Annot, scope: Renaming, pos: int, stops: bool,
                   eval: Sym -> bool, mod: W.Callees)
    requires n.Compose? && W.Position(W.Seq([W.Leaf(a), b]), pos) > 0
    requires var p := W.Position(W.Seq([W.Leaf(a), b]), pos);
             var d := W.Denote(W.Seq([W.Leaf(a), b]), n.left, scope, p - 1, false, eval, mod);
             var d' := W.Denote(W.Seq([W.Leaf(a'), b]), n.left, scope, p - 1, false, eval, mod);
             && (d'.Some? <==> d.Some?)
             && (d.Some? ==> d'.value == SwapFirst(d.value, W.Handle(W.Leaf(a'))))
             && (d.Some? ==> (d.value == [] <==> p - 1 == 0))
    ensures var d := W.Denote(W.Seq([W.Leaf(a), b]), n, scope, pos, stops, eval, mod);
            var d' := W.Denote(W.Seq([W.Leaf(a'), b]), n, scope, pos, stops, eval, mod);
            && (d'.Some? <==> d.Some?)
            && (d.Some? ==> d'.value == SwapFirst(d.value, W.Handle(W.Leaf(a'))) && d.value != [])
  {
    hide W.Denote, W.Entered;
    var s, s' := W.Seq([W.Leaf(a), b]), W.Seq([W.Leaf(a'), b]);
    var p := W.Position(s, pos);
    W.DenoteStep(s, n, scope, pos, stops, eval, mod);
    W.DenoteStep(s', n, scope, pos, stops, eval, mod);
    if p == 1 { LeafDenoted(a, a', n.right, scope, stops, eval, mod); }
  }

  lemma {:induction false} LeafDenoted(a: Action, a': Action, n: W.Annot, scope: Renaming, stops: bool,
                                       eval: Sym -> bool, mod: W.Callees)
    ensures var d := W.Denote(W.Leaf(a), n, scope, -1, stops, eval, mod);
            var d' := W.Denote(W.Leaf(a'), n, scope, -1, stops, eval, mod);
            && d.Some? && |d.value| == 1 && d'.Some?
            && d'.value == [d.value[0].(event := W.Handle(W.Leaf(a')))]
  {
    if n.Rename? { LeafDenoted(a, a', n.arg, W.Entered(scope, n.m), stops, eval, mod); }
  }

  /** A branch of "if some" is walked behind an empty assumption instead of its condition. */
  lemma DenoteWrapped(f: Expr, b: Action, n: W.Annot, scope: Renaming, stops: bool, eval: Sym -> bool,
                      mod: W.Callees)
    requires W.Denote(Shape(Sequence([Assume(f), b])), n, scope, -1, stops, eval, mod).Some?
    ensures var d := W.Denote(Shape(Sequence([Assume(f), b])), n, scope, -1, stops, eval, mod);
            var d' := W.Denote(W.Wrapped(true, Shape(b)), n, scope, -1, stops, eval, mod);
            && d'.Some? && |d'.value| == |d.value| && (d.value != [] ==> d'.value[0].event == ASSUMED)
            && (d.value != [] ==> W.Events(d'.value)[1..] == W.Events(d.value)[1..])
  {
    hide W.Denote;
    var es := [Assume(f), b];
    assert es[..1] == [Assume(f)] && es[..1][..0] == [];
    assert Shapes(es) == [W.Leaf(Assume(f)), Shape(b)];
    DenoteBehind(Assume(f), Assume(Lit(1)), Shape(b), n, scope, -1, stops, eval, mod);
  }

  lemma TracedElements(steps: seq<Action>, es: seq<W.Event>, o: State, s: State, t: State)
    requires Traced(Sequence(steps), es, o, s, t)
    ensures TracedAll(steps, es, o, s, t)
  {
  }

  lemma TracedAssumption(f: Expr, es: seq<W.Event>, o: State, s: State, t: State)
    requires TracedAll([Assume(f)], es, o, s, t)
    ensures |es| == 1 && Same(s, t) && True(f, o, s)
  {
    hide True;
    var steps := [Assume(f)];
    assert steps[..0] == [];
    var k: State, x: seq<W.Event>, y: seq<W.Event> :|
      es == x + y && TracedAll(steps[..0], x, o, s, k) && Traced(steps[0], y, o, k, t);
    TracedAtom(Assume(f), y, o, k, t);
    TrueSame(f, o, k, s);
  }

  lemma TracedAtom(a: Action, es: seq<W.Event>, o: State, s: State, t: State)
    requires a.Assume? && Traced(a, es, o, s, t)
    ensures es == [W.Handle(W.Leaf(a))] && Same(s, t) && True(a.f, o, s)
  {
    hide True;
  }

  /** What a guarded action passes. */
  lemma TracedBehind(f: Expr, b: Action, es: seq<W.Event>, o: State, s: State, t: State)
    requires Traced(Sequence([Assume(f), b]), es, o, s, t)
    ensures es != [] && True(f, o, s) && exists m: State :: Same(s, m) && Traced(b, es[1..], o, m, t)
  {
    hide True, Traced;
    var steps := [Assume(f), b];
    assert steps[..1] == [Assume(f)];
    TracedElements(steps, es, o, s, t);
    var m: State, x: seq<W.Event>, y: seq<W.Event> :|
      es == x + y && TracedAll(steps[..1], x, o, s, m) && Traced(b, y, o, m, t);
    TracedAssumption(f, x, o, s, m);
    assert es[1..] == y;
  }

  lemma TrueSame(f: Expr, o: State, s: State, t: State)
    requires True(f, o, s) && Same(s, t)
    ensures True(f, o, t)
  {
    hide True;
    AssumeIs(f, o, s, s);
    AssumeIs(f, o, t, t);
    Eq.ExecSame(Assume(f), o, s, s, o, t, t);
  }

  lemma SomeBranch(a: Action, n: W.Annot, scope: Renaming, stops: bool, eval: Sym -> bool, mod: W.Callees)
    requires a.IfSome? && n.Branch?
    ensures W.Denote(Shape(a), n, scope, -1, stops, eval, mod) ==
            if W.Ask(eval, scope, n.cond)
            then W.Denote(W.Wrapped(true, Shape(a.thn)), n.thn, scope, -1, stops, eval, mod)
            else W.Denote(W.Wrapped(true, Shape(a.els)), n.els, scope, -1, stops, eval, mod)
  {
    hide W.Ask, W.Wrapped;
  }

  /** A run of a part, with its first assumption told as an empty one, is a run of "if some". */
  lemma ThenTraced(a: Action, es: seq<W.Event>, es': seq<W.Event>, o: State, s: State, t: State)
    requires a.IfSome? && SomeOk(a.some) && Traced(IfPart(a.some, a.thn), es, o, s, t)
    requires |es'| == |es| && (es != [] ==> es'[0] == ASSUMED && es'[1..] == es[1..])
    ensures Traced(a, es', o, s, t)
  {
    hide Picked, SomeFormula, SomeOk, SameOn, True;
    var f, body := SomeFormula(a.some), Sequence([Assume(SomeFormula(a.some)), a.thn]);
    var s1: State, t1: State :|
      SameOff(a.some.params, s1, s) && SameOff(a.some.params, t1, t) && Traced(body, es, o, s1, t1);
    TracedBehind(f, a.thn, es, o, s1, t1);
    var w: State :| Same(s1, w) && Traced(a.thn, es[1..], o, w, t1);
    TrueSame(f, o, s1, w);
    PickedOff(a.some, o, s, w);
  }

  lemma ElseTraced(a: Action, es: seq<W.Event>, es': seq<W.Event>, o: State, s: State, t: State)
    requires a.IfSome? && SomeOk(a.some) && Traced(ElsePart(a.some, a.els), es, o, s, t)
    requires |es'| == |es| && (es != [] ==> es'[0] == ASSUMED && es'[1..] == es[1..])
    ensures Traced(a, es', o, s, t)
  {
    hide Witnesses, NoneFormula, SomeOk, SameOn, True, SameOff, Same;
    TracedBehind(NoneFormula(a.some), a.els, es, o, s, t);
    NoneMeaning(a.some, o, s);
  }

  /** What a guarded action passes before it fails. */
  lemma FailTracedBehind(f: Expr, b: Action, es: seq<W.Event>, o: State, s: State)
    requires FailTraced(Sequence([Assume(f), b]), es, o, s)
    ensures es != [] && True(f, o, s) && exists m: State :: Same(s, m) && FailTraced(b, es[1..], o, m)
  {
    hide True, Traced, TracedAll;
    var steps := [Assume(f), b];
    assert steps[..1] == [Assume(f)];
    NoAssumptionFails(f, es, o, s);
    var m: State, x: seq<W.Event>, y: seq<W.Event> :|
      es == x + y && TracedAll(steps[..1], x, o, s, m) && FailTraced(b, y, o, m);
    TracedAssumption(f, x, o, s, m);
    assert es[1..] == y;
  }

  lemma NoAssumptionFails(f: Expr, es: seq<W.Event>, o: State, s: State)
    ensures !FailTracedAll([Assume(f)], es, o, s)
  {
    var steps := [Assume(f)];
    assert steps[..0] == [];
    assert !FailTracedAll(steps[..0], es, o, s);
  }

  lemma ThenFailureTraced(a: Action, es: seq<W.Event>, es': seq<W.Event>, o: State, s: State)
    requires a.IfSome? && SomeOk(a.some) && FailTraced(IfPart(a.some, a.thn), es, o, s)
    requires |es'| == |es| && (es != [] ==> es'[0] == ASSUMED && es'[1..] == es[1..])
    ensures FailTraced(a, es', o, s)
  {
    hide Picked, SomeFormula, SomeOk, True;
    var f, body := SomeFormula(a.some), Sequence([Assume(SomeFormula(a.some)), a.thn]);
    var s1: State :| SameOff(a.some.params, s1, s) && FailTraced(body, es, o, s1);
    FailTracedBehind(f, a.thn, es, o, s1);
    var w: State :| Same(s1, w) && FailTraced(a.thn, es[1..], o, w);
    TrueSame(f, o, s1, w);
    PickedOff(a.some, o, s, w);
  }

  lemma ElseFailureTraced(a: Action, es: seq<W.Event>, es': seq<W.Event>, o: State, s: State)
    requires a.IfSome? && SomeOk(a.some) && FailTraced(ElsePart(a.some, a.els), es, o, s)
    requires |es'| == |es| && (es != [] ==> es'[0] == ASSUMED && es'[1..] == es[1..])
    ensures FailTraced(a, es', o, s)
  {
    hide Witnesses, NoneFormula, SomeOk, True, Same;
    FailTracedBehind(NoneFormula(a.some), a.els, es, o, s);
    NoneMeaning(a.some, o, s);
  }

  lemma {:induction false} IfSomeTold(a: Action, v: Val, o: State, s: State, t: State,
                                      scope: Renaming, eval: Sym -> bool, mod: W.Callees)
    requires a.IfSome? && Core(a) && Moves(IntUpdate(a), v, o, s, t) && Reads(scope, eval, v)
    requires W.Fair(NotesOf(a).tr, scope, eval)
    ensures Tells(a, NotesOf(a).tr, scope, eval, mod, o, s, t)
    decreases Size(a), 2
  {
    CoreIfPart(a.some, a.thn, a.els);
    var p, q := IfPart(a.some, a.thn), ElsePart(a.some, a.els);
    var u1, u2 := IntUpdate(p), IntUpdate(q);
    var n1, n2 := NotesOf(p).tr, NotesOf(q).tr;
    var c, d := And(u1.tr, DiffFrame(u1.mod, u2.mod)), And(u2.tr, DiffFrame(u2.mod, u1.mod));
    assert IntUpdate(a) == Join(u1, u2) && NotesOf(a).tr == SwappedNote(c, n1, d, n2) && SomeOk(a.some);
    hide W.Fair, Reads, Moves, Join, Core, IntUpdate, NotesOf, And, DiffFrame, OrCond, IfPart, ElsePart, Tells, SomeOk;
    FairSwapped(c, n1, d, n2, scope, eval);
    JoinMoves(u1, u2, v, o, s, t, scope, eval);
    if W.Ask(eval, scope, OrCond(c, d)) {
      TransitionTold(q, v, o, s, t, scope, eval, mod);
      ElseTold(a, c, n1, d, n2, scope, eval, mod, o, s, t);
    } else {
      TransitionTold(p, v, o, s, t, scope, eval, mod);
      ThenTold(a, c, n1, d, n2, scope, eval, mod, o, s, t);
    }
  }

  lemma ThenTold(a: Action, c: Clauses, n: W.Annot, d: Clauses, n': W.Annot, scope: Renaming, eval: Sym -> bool,
                 mod: W.Callees, o: State, s: State, t: State)
    requires a.IfSome? && SomeOk(a.some) && Tells(IfPart(a.some, a.thn), n, scope, eval, mod, o, s, t)
    requires W.Ask(eval, scope, Negated(OrCond(c, d)))
    ensures Tells(a, SwappedNote(c, n, d, n'), scope, eval, mod, o, s, t)
  {
    hide OrCond, W.Ask, W.Denote, Traced, Picked, SomeFormula, SomeOk, Same;
    var f, es := SomeFormula(a.some), W.Denote(Shape(IfPart(a.some, a.thn)), n, scope, -1, false, eval, mod);
    var body := Sequence([Assume(f), a.thn]);
    DenoteLocal(Shape(body), n, scope, false, eval, mod);
    DenoteWrapped(f, a.thn, n, scope, false, eval, mod);
    SomeBranch(a, SwappedNote(c, n, d, n'), scope, false, eval, mod);
    var d' := W.Denote(W.Wrapped(true, Shape(a.thn)), n, scope, -1, false, eval, mod).value;
    ThenTraced(a, W.Events(es.value), W.Events(d'), o, s, t);
  }

  lemma ElseTold(a: Action, c: Clauses, n: W.Annot, d: Clauses, n': W.Annot, scope: Renaming, eval: Sym -> bool,
                 mod: W.Callees, o: State, s: State, t: State)
    requires a.IfSome? && SomeOk(a.some) && Tells(ElsePart(a.some, a.els), n', scope, eval, mod, o, s, t)
    requires !W.Ask(eval, scope, Negated(OrCond(c, d)))
    ensures Tells(a, SwappedNote(c, n, d, n'), scope, eval, mod, o, s, t)
  {
    hide OrCond, W.Ask, W.Denote, Traced, Witnesses, NoneFormula, SomeOk, Same;
    var f, es := NoneFormula(a.some), W.Denote(Shape(ElsePart(a.some, a.els)), n', scope, -1, false, eval, mod);
    DenoteWrapped(f, a.els, n', scope, false, eval, mod);
    SomeBranch(a, SwappedNote(c, n, d, n'), scope, false, eval, mod);
    var d' := W.Denote(W.Wrapped(true, Shape(a.els)), n', scope, -1, false, eval, mod).value;
    ElseTraced(a, W.Events(es.value), W.Events(d'), o, s, t);
  }

  // ----- reading a failure back -----

  /** Every valuation of the failing condition, read through its annotation, tells a run that fails. */
  lemma {:induction false} FailureTold(a: Action, v: Val, o: State, s: State, t: State,
                                       scope: Renaming, eval: Sym -> bool, mod: W.Callees)
    requires Core(a) && Breaks(IntUpdate(a), v, o, s, t) && Reads(scope, eval, v)
    requires W.Fair(NotesOf(a).pre, scope, eval)
    ensures TellsFailure(a, NotesOf(a).pre, scope, eval, mod, o, s)
    decreases Size(a), 3
  {
    hide Breaks, TellsFailure, W.Fair, Reads, NotesOf;
    match a
    case Sequence(es) => WholeFailureTold(a, v, o, s, t, scope, eval, mod);
    case Choice(_) => ChoiceFailureTold(a, v, o, s, t, scope, eval, mod);
    case If(_, _, _) => IfFailureTold(a, v, o, s, t, scope, eval, mod);
    case Local(_, _) => LocalFailureTold(a, v, o, s, t, scope, eval, mod);
    case IfSome(_, _, _) => IfSomeFailureTold(a, v, o, s, t, scope, eval, mod);
    case _ => LeafFailureTold(a, v, o, s, t, scope, eval, mod);
  }

  lemma {:induction false} IfSomeFailureTold(a: Action, v: Val, o: State, s: State, t: State,
                                      scope: Renaming, eval: Sym -> bool, mod: W.Callees)
    requires a.IfSome? && Core(a) && Breaks(IntUpdate(a), v, o, s, t) && Reads(scope, eval, v)
    requires W.Fair(NotesOf(a).pre, scope, eval)
    ensures TellsFailure(a, NotesOf(a).pre, scope, eval, mod, o, s)
    decreases Size(a), 2
  {
    CoreIfPart(a.some, a.thn, a.els);
    var p, q := IfPart(a.some, a.thn), ElsePart(a.some, a.els);
    var u1, u2 := IntUpdate(p), IntUpdate(q);
    var n1, n2 := NotesOf(p).pre, NotesOf(q).pre;
    var c, d := And(u1.pre, DiffFrame(u1.mod, u2.mod)), And(u2.pre, DiffFrame(u2.mod, u1.mod));
    assert IntUpdate(a) == Join(u1, u2) && NotesOf(a).pre == SwappedNote(c, n1, d, n2) && SomeOk(a.some);
    hide W.Fair, Reads, Breaks, Join, Core, IntUpdate, NotesOf, And, DiffFrame, OrCond, IfPart, ElsePart, TellsFailure,
      SomeOk;
    FairSwapped(c, n1, d, n2, scope, eval);
    JoinBreaks(u1, u2, v, o, s, t, scope, eval);
    if W.Ask(eval, scope, OrCond(c, d)) {
      FailureTold(q, v, o, s, t, scope, eval, mod);
      ElseFailureTold(a, c, n1, d, n2, scope, eval, mod, o, s);
    } else {
      FailureTold(p, v, o, s, t, scope, eval, mod);
      ThenFailureTold(a, c, n1, d, n2, scope, eval, mod, o, s);
    }
  }

  lemma ThenFailureTold(a: Action, c: Clauses, n: W.Annot, d: Clauses, n': W.Annot, scope: Renaming, eval: Sym -> bool,
                 mod: W.Callees, o: State, s: State)
    requires a.IfSome? && SomeOk(a.some) && TellsFailure(IfPart(a.some, a.thn), n, scope, eval, mod, o, s)
    requires W.Ask(eval, scope, Negated(OrCond(c, d)))
    ensures TellsFailure(a, SwappedNote(c, n, d, n'), scope, eval, mod, o, s)
  {
    hide OrCond, W.Ask, W.Denote, FailTraced, Picked, SomeFormula, SomeOk, Same;
    var f, es := SomeFormula(a.some), W.Denote(Shape(IfPart(a.some, a.thn)), n, scope, -1, true, eval, mod);
    var body := Sequence([Assume(f), a.thn]);
    DenoteLocal(Shape(body), n, scope, true, eval, mod);
    DenoteWrapped(f, a.thn, n, scope, true, eval, mod);
    SomeBranch(a, SwappedNote(c, n, d, n'), scope, true, eval, mod);
    var d' := W.Denote(W.Wrapped(true, Shape(a.thn)), n, scope, -1, true, eval, mod).value;
    ThenFailureTraced(a, W.Events(es.value), W.Events(d'), o, s);
  }

  lemma ElseFailureTold(a: Action, c: Clauses, n: W.Annot, d: Clauses, n': W.Annot, scope: Renaming, eval: Sym -> bool,
                 mod: W.Callees, o: State, s: State)
    requires a.IfSome? && SomeOk(a.some) && TellsFailure(ElsePart(a.some, a.els), n', scope, eval, mod, o, s)
    requires !W.Ask(eval, scope, Negated(OrCond(c, d)))
    ensures TellsFailure(a, SwappedNote(c, n, d, n'), scope, eval, mod, o, s)
  {
    hide OrCond, W.Ask, W.Denote, FailTraced, Witnesses, NoneFormula, SomeOk, Same;
    var f, es := NoneFormula(a.some), W.Denote(Shape(ElsePart(a.some, a.els)), n', scope, -1, true, eval, mod);
    DenoteWrapped(f, a.els, n', scope, true, eval, mod);
    SomeBranch(a, SwappedNote(c, n, d, n'), scope, true, eval, mod);
    var d' := W.Denote(W.Wrapped(true, Shape(a.els)), n', scope, -1, true, eval, mod).value;
    ElseFailureTraced(a, W.Events(es.value), W.Events(d'), o, s);
  }

  lemma LeafFailureTold(a: Action, v: Val, o: State, s: State, t: State,
                        scope: Renaming, eval: Sym -> bool, mod: W.Callees)
    requires Leaf(a) && Core(a) && Breaks(IntUpdate(a), v, o, s, t)
    ensures TellsFailure(a, NotesOf(a).pre, scope, eval, mod, o, s)
  {
    hide Breaks, Core, IntUpdate, NotesOf, Aborts, W.Denote;
    BreaksFails(IntUpdate(a), v, o, s, t);
    CompilerCorrect(a);
    DenoteLeaf(a, NotesOf(a).pre, scope, true, eval, mod);
  }

  lemma {:induction false} IfFailureTold(a: Action, v: Val, o: State, s: State, t: State,
                                         scope: Renaming, eval: Sym -> bool, mod: W.Callees)
    requires a.If? && Core(a) && Breaks(IntUpdate(a), v, o, s, t) && Reads(scope, eval, v)
    requires W.Fair(NotesOf(a).pre, scope, eval)
    ensures TellsFailure(a, NotesOf(a).pre, scope, eval, mod, o, s)
    decreases Size(a), 2
  {
    hide W.Fair, Reads, IteClauses, And, DiffFrame, Holds, Eval, ClosedCond, CondHolds, IteNote;
    var u1, u2 := IntUpdate(a.thn), IntUpdate(a.els);
    var n1, n2 := NotesOf(a.thn).pre, NotesOf(a.els).pre;
    var d12, d21 := DiffFrame(u1.mod, u2.mod), DiffFrame(u2.mod, u1.mod);
    CondClosed(a.cond);
    IteTaken(a.cond, And(u1.pre, d12), And(u2.pre, d21), v, scope, eval, n1, n2);
    FairBranch(NotesOf(a).pre, scope, eval);
    CondRead(a.cond, v, o, s, t);
    if CondHolds(a.cond, o, s) {
      FrameSplit(u1.pre, u1.mod, u2.mod, v, o, s, t);
      FailureTold(a.thn, v, o, s, t, scope, eval, mod);
    } else {
      FrameSplit(u2.pre, u2.mod, u1.mod, v, o, s, t);
      FailureTold(a.els, v, o, s, t, scope, eval, mod);
    }
  }

  lemma {:induction false} LocalFailureTold(a: Action, v: Val, o: State, s: State, t: State,
                                            scope: Renaming, eval: Sym -> bool, mod: W.Callees)
    requires a.Local? && Core(a) && Breaks(IntUpdate(a), v, o, s, t) && Reads(scope, eval, v)
    requires W.Fair(NotesOf(a).pre, scope, eval)
    ensures TellsFailure(a, NotesOf(a).pre, scope, eval, mod, o, s)
    decreases Size(a), 2
  {
    hide W.Fair, Reads, Holds, Rename, HideMap, NewOnly, W.Entered, W.Denote, Renamed;
    var u := IntUpdate(a.body);
    UpdateFormed(a.body);
    var m := HideMap(a.xs, u.mod, u.pre);
    var s1, t1, w := HideSplit(a.xs, u.mod, u.pre, m, v, o, s, t);
    FairRenamed(NotesOf(a.body).pre, m, scope, eval);
    ReadsRenamed(scope, eval, v, m);
    ReadsSame(W.Entered(scope, m), eval, Pull(v, m), w);
    FailureTold(a.body, w, o, s1, t1, W.Entered(scope, m), eval, mod);
    DenoteRenamed(Shape(a.body), NotesOf(a.body).pre, m, scope, -1, true, eval, mod);
    DenoteLocal(Shape(a.body), NotesOf(a).pre, scope, true, eval, mod);
  }

  lemma WholeFailureTold(a: Action, v: Val, o: State, s: State, t: State,
                         scope: Renaming, eval: Sym -> bool, mod: W.Callees)
    requires a.Sequence? && Core(a) && Breaks(IntUpdate(a), v, o, s, t) && Reads(scope, eval, v)
    requires W.Fair(NotesOf(a).pre, scope, eval)
    ensures TellsFailure(a, NotesOf(a).pre, scope, eval, mod, o, s)
    decreases Size(a), 2
  {
    hide Breaks, W.Fair, Reads, Core, SequenceNotes, ComposeAll, W.Denote, FailTracedAll;
    var es := a.elems;
    CoreMembers(a);
    assert es[..|es|] == es;
    SequenceFailureTold(es, |es|, v, o, s, t, scope, eval, mod);
    DenoteWhole(Shapes(es), SequenceNotes(es).pre, scope, true, eval, mod);
  }

  /** A valuation of the second way for a composition to fail is a transition and a failure. */
  lemma ComposeBreaks(u1: Update, u2: Update, v: Val, o: State, s: State, t: State) returns (m: State, w1: Val, w2: Val)
    requires WellFormed(u1) && SameProgram(Mk(o, s, t), v)
    requires Holds(FailsSecond(u1, u2), v)
    ensures Moves(u1, w1, o, s, m) && Breaks(u2, w2, o, m, t)
    ensures forall x: Sym :: !Program(x) ==> w1(x) == Pull(v, MidNew(u1.mod, MidMap(u1, u2)))(x)
    ensures w2 == Pull(Pull(v, MidBase(u1.mod, MidMap(u1, u2))), DistinctMap(u2.pre, u1.tr))
  {
    hide Link, NewOnly, NoRigid, Apart, Or, Holds, SameProgram, Used, Pull, MidNew, MidBase;
    var mm := MidMap(u1, u2);
    ApartFrom(mm, UsedNames(u1.tr));
    m, w1, w2 := LinkSplit(u1.tr, u2.pre, DistinctMap(u2.pre, u1.tr), mm, u1.mod, o, s, t, v);
  }

  /** The two ways for a composition to fail. */
  function FailsFirst(u1: Update, u2: Update): Clauses
  {
    And(u1.pre, DiffFrame(u1.mod, u2.mod))
  }

  function FailsSecond(u1: Update, u2: Update): Clauses
  {
    Link(u1.tr, Rename(u2.pre, DistinctMap(u2.pre, u1.tr)), u1.mod, MidMap(u1, u2))
  }

  /** A valuation of the failing condition of a composition is one of either way, and the answers tell which. */
  lemma ComposeBroken(u1: Update, u2: Update, v: Val, o: State, s: State, t: State, scope: Renaming, eval: Sym -> bool)
    requires Breaks(Compose(u1, u2), v, o, s, t) && Reads(scope, eval, v)
    ensures SameProgram(Mk(o, s, t), v)
    ensures if W.Ask(eval, scope, OrCond(FailsFirst(u1, u2), FailsSecond(u1, u2))) then Holds(FailsSecond(u1, u2), v)
            else Breaks(u1, v, o, s, t)
  {
    hide Reads, DiffFrame, And, Or, Holds, OrCond, SameProgram, Link, MidMap, DistinctMap;
    OrTaken(FailsFirst(u1, u2), FailsSecond(u1, u2), v, scope, eval);
    if !W.Ask(eval, scope, OrCond(FailsFirst(u1, u2), FailsSecond(u1, u2))) {
      FrameSplit(u1.pre, u1.mod, u2.mod, v, o, s, t);
    }
  }

  lemma ComposePreNote(u1: Update, n1: Notes, u2: Update, n2: Notes)
    ensures ComposeNotes(u1, n1, u2, n2).pre ==
            W.Branch(OrCond(FailsFirst(u1, u2), FailsSecond(u1, u2)),
                     LinkNote(n1.tr, n2.pre, DistinctMap(u2.pre, u1.tr), u1.mod, MidMap(u1, u2)), n1.pre)
  {
    hide OrCond, LinkNote, And, Link, DiffFrame, MidMap, DistinctMap;
  }

  lemma {:induction false} SequenceFailureTold(es: seq<Action>, p: nat, v: Val, o: State, s: State, t: State,
                                               scope: Renaming, eval: Sym -> bool, callees: W.Callees)
    requires p <= |es| && (forall e :: e in es ==> Core(e))
    requires Breaks(ComposeAll(es[..p]), v, o, s, t) && Reads(scope, eval, v)
    requires W.Fair(SequenceNotes(es[..p]).pre, scope, eval)
    ensures TellsFirstFailure(es, p, SequenceNotes(es[..p]).pre, scope, eval, callees, o, s)
    decreases SizeAll(es), 5, p
  {
    hide Core, W.Fair, Reads, Breaks, Compose, ComposeNotes, IntUpdate, NotesOf, TellsFirstFailure, OrCond, FailsFirst,
      FailsSecond, ComposeAll, SequenceNotes, LinkNote;
    if p == 0 {
      NothingFails(es, v, o, s, t);
    } else {
      var k := p - 1;
      var u1, u2 := ComposeAll(es[..k]), IntUpdate(es[k]);
      ComposeUpdateIs(es, k);
      ComposeBroken(u1, u2, v, o, s, t, scope, eval);
      var n1, n2 := SequenceNotes(es[..k]), NotesOf(es[k]);
      ComposePreNote(u1, n1, u2, n2);
      FairBranch(SequenceNotes(es[..p]).pre, scope, eval);
      var cond := OrCond(FailsFirst(u1, u2), FailsSecond(u1, u2));
      if W.Ask(eval, scope, cond) {
        LastFailureTold(es, k, v, o, s, t, scope, eval, callees);
      } else {
        SequenceFailureTold(es, k, v, o, s, t, scope, eval, callees);
      }
      StopTold(es, k, cond, LinkNote(n1.tr, n2.pre, DistinctMap(u2.pre, u1.tr), u1.mod, MidMap(u1, u2)), n1.pre,
               o, s, scope, eval, callees);
    }
  }

  lemma {:induction false} LastFailureTold(es: seq<Action>, k: nat, v: Val, o: State, s: State, t: State,
                                           scope: Renaming, eval: Sym -> bool, callees: W.Callees)
    requires k < |es| && (forall e :: e in es ==> Core(e)) && SameProgram(Mk(o, s, t), v) && Reads(scope, eval, v)
    requires Holds(FailsSecond(ComposeAll(es[..k]), IntUpdate(es[k])), v)
    requires var u1, u2 := ComposeAll(es[..k]), IntUpdate(es[k]);
             W.Fair(LinkNote(SequenceNotes(es[..k]).tr, NotesOf(es[k]).pre, DistinctMap(u2.pre, u1.tr), u1.mod,
                             MidMap(u1, u2)), scope, eval)
    ensures var u1, u2 := ComposeAll(es[..k]), IntUpdate(es[k]);
            var n := LinkNote(SequenceNotes(es[..k]).tr, NotesOf(es[k]).pre, DistinctMap(u2.pre, u1.tr), u1.mod,
                              MidMap(u1, u2));
            TellsFirstFailure(es, k + 1, n, scope, eval, callees, o, s)
    decreases SizeAll(es), 5, k
  {
    hide Core, W.Fair, Reads, IntUpdate, NotesOf, TellsFirstFailure, TellsFailure, TellsFirst, Holds, Link, LinkNote,
      SameProgram, Moves, Breaks, ComposeAll, SequenceNotes;
    var u1, u2 := ComposeAll(es[..k]), IntUpdate(es[k]);
    var rd, mm := DistinctMap(u2.pre, u1.tr), MidMap(u1, u2);
    SequenceFormed(es[..k]);
    var m, w1, w2 := ComposeBreaks(u1, u2, v, o, s, t);
    DistinctKeeps(u2.pre, u1.tr);
    LinkReads(scope, eval, v, rd, u1.mod, mm, w1, w2);
    FairLink(SequenceNotes(es[..k]).tr, NotesOf(es[k]).pre, rd, u1.mod, mm, scope, eval);
    SizeMember(es, k);
    SequenceTold(es, k, w1, o, s, m, W.Entered(scope, MidNew(u1.mod, mm)), eval, callees);
    FailureTold(es[k], w2, o, m, t, W.Entered(W.Entered(scope, MidBase(u1.mod, mm)), rd), eval, callees);
    StepFailureTold(es, k, SequenceNotes(es[..k]).tr, NotesOf(es[k]).pre, rd, u1.mod, mm, o, s, m, scope, eval,
                    callees);
  }

  lemma NothingFails(es: seq<Action>, v: Val, o: State, s: State, t: State)
    requires forall e :: e in es ==> Core(e)
    ensures !Breaks(ComposeAll(es[..0]), v, o, s, t)
  {
    assert es[..0] == [];
  }

  lemma StepFailureTold(es: seq<Action>, k: nat, n: W.Annot, n': W.Annot, rd: Renaming, mod: seq<Id>, mm: Renaming,
                        o: State, s: State, m: State, scope: Renaming, eval: Sym -> bool, callees: W.Callees)
    requires k < |es|
    requires TellsFirst(es, k, n, W.Entered(scope, MidNew(mod, mm)), eval, callees, o, s, m)
    requires TellsFailure(es[k], n', W.Entered(W.Entered(scope, MidBase(mod, mm)), rd), eval, callees, o, m)
    ensures TellsFirstFailure(es, k + 1, LinkNote(n, n', rd, mod, mm), scope, eval, callees, o, s)
  {
    hide W.Denote, MidNew, MidBase, W.Entered, LinkNote, FailTraced;
    LinkDenotes(Shapes(es), k, n, n', rd, mod, mm, scope, true, eval, callees);
    W.EventsBoth(W.Denote(W.Seq(Shapes(es)), n, W.Entered(scope, MidNew(mod, mm)), k, false, eval, callees).value,
                 W.Denote(Shape(es[k]), n', W.Entered(W.Entered(scope, MidBase(mod, mm)), rd), -1, true, eval,
                          callees).value);
    assert es[..k + 1][..k] == es[..k] && es[..k + 1][k] == es[k];
  }

  /** Stopping at the last action or before it. */
  lemma StopTold(es: seq<Action>, k: nat, cond: W.Cond, last: W.Annot, before: W.Annot, o: State, s: State,
                 scope: Renaming, eval: Sym -> bool, callees: W.Callees)
    requires k < |es|
    requires if W.Ask(eval, scope, cond) then TellsFirstFailure(es, k + 1, last, scope, eval, callees, o, s)
             else TellsFirstFailure(es, k, before, scope, eval, callees, o, s)
    ensures TellsFirstFailure(es, k + 1, W.Branch(cond, last, before), scope, eval, callees, o, s)
  {
    hide FailTraced, TracedAll;
    assert es[..k + 1][..k] == es[..k];
  }

  lemma ChoiceFailureTold(a: Action, v: Val, o: State, s: State, t: State,
                          scope: Renaming, eval: Sym -> bool, mod: W.Callees)
    requires a.Choice? && Core(a) && Breaks(IntUpdate(a), v, o, s, t) && Reads(scope, eval, v)
    requires W.Fair(NotesOf(a).pre, scope, eval)
    ensures TellsFailure(a, NotesOf(a).pre, scope, eval, mod, o, s)
    decreases Size(a), 2
  {
    hide Breaks, W.Fair, Reads, Core, ChoiceNotes, JoinAll, W.DenoteChoice, W.Arms;
    var bs := a.branches;
    CoreMembers(a);
    if bs == [] {
      NoBranchMoves(v, o, s, t);
    } else {
      ChoiceArms(bs);
      SomeFailureTold(bs, v, o, s, t, scope, eval, mod);
    }
  }

  lemma PickFailureTold(bs: seq<Action>, cond: W.Cond, last: W.Annot, before: W.Annot, o: State, s: State,
                        scope: Renaming, eval: Sym -> bool, mod: W.Callees)
    requires bs != [] && W.Arms(before) == |bs| - 1
    requires if W.Ask(eval, scope, cond) then TellsFailure(bs[|bs| - 1], last, scope, eval, mod, o, s)
             else TellsSomeFailure(bs[..|bs| - 1], before, scope, eval, mod, o, s)
    ensures TellsSomeFailure(bs, W.Branch(cond, last, before), scope, eval, mod, o, s)
  {
    hide W.Denote, FailTraced;
    assert Shapes(bs)[..|bs| - 1] == Shapes(bs[..|bs| - 1]);
  }

  lemma {:induction false} SomeFailureTold(bs: seq<Action>, v: Val, o: State, s: State, t: State,
                                           scope: Renaming, eval: Sym -> bool, mod: W.Callees)
    requires (forall b :: b in bs ==> Core(b)) && Breaks(JoinAll(bs), v, o, s, t) && Reads(scope, eval, v)
    requires W.Fair(ChoiceNotes(bs).pre, scope, eval)
    ensures TellsSomeFailure(bs, ChoiceNotes(bs).pre, scope, eval, mod, o, s)
    decreases SizeAll(bs), 4, 0
  {
    hide Core, W.Fair, Reads, Breaks, IntUpdate, NotesOf, DiffFrame, And, OrCond, W.Arms, TellsFailure,
      TellsSomeFailure, Join;
    if bs == [] {
      NoBranchMoves(v, o, s, t);
    } else {
      var n := |bs| - 1;
      JoinUpdateIs(bs);
      ChoiceArms(bs[..n]);
      var u1, u2 := JoinAll(bs[..n]), IntUpdate(bs[n]);
      hide JoinAll, ChoiceNotes;
      var c, d := And(u1.pre, DiffFrame(u1.mod, u2.mod)), And(u2.pre, DiffFrame(u2.mod, u1.mod));
      FairBranch(ChoiceNotes(bs).pre, scope, eval);
      JoinBreaks(u1, u2, v, o, s, t, scope, eval);
      if W.Ask(eval, scope, OrCond(c, d)) {
        FailureTold(bs[n], v, o, s, t, scope, eval, mod);
      } else {
        SomeFailureTold(bs[..n], v, o, s, t, scope, eval, mod);
      }
      PickFailureTold(bs, OrCond(c, d), NotesOf(bs[n]).pre, ChoiceNotes(bs[..n]).pre, o, s, scope, eval, mod);
    }
  }
}
