/**
 Composition under background axioms.  Of the axioms, those that mention a symbol changed by both updates are
 asked of the state in between; the others are not, and it is shown which of them hold there all the same.
 */
module Backgrounds {
  import opened Names
  import opened Logic
  import opened ClauseOps
  import opened Updates
  import opened Hiding

  /** An axiom is about one state. */
  predicate StateAxiom(c: Clauses)
  {
    forall x :: x in Used(c) ==> x.kind.Base?
  }

  predicate Axioms(ax: seq<Clauses>)
  {
    forall c :: c in ax ==> StateAxiom(c)
  }

  predicate Uses(c: Clauses, ids: seq<Id>)
  {
    exists x :: x in Used(c) && x.id in ids
  }

  function Conjunction(ax: seq<Clauses>): Clauses
  {
    if ax == [] then TOP else Both(Conjunction(ax[..|ax| - 1]), ax[|ax| - 1])
  }

  /** The axioms that mention one of the symbols. */
  function Using(ids: seq<Id>, ax: seq<Clauses>): (r: seq<Clauses>)
    ensures forall c :: c in r <==> c in ax && Uses(c, ids)
  {
    if ax == [] then [] else
    var r := Using(ids, ax[..|ax| - 1]);
    var c := ax[|ax| - 1];
    assert ax == ax[..|ax| - 1] + [c];
    if Uses(c, ids) then r + [c] else r
  }

  function Mid(u1: Update, u2: Update): seq<Id>
  {
    Select(u1.mod, u2.mod, true)
  }

  function MidAxioms(ax: seq<Clauses>, u1: Update, u2: Update): Clauses
  {
    Conjunction(Using(Mid(u1, u2), ax))
  }

  /** Composition, with the axioms about symbols that both updates change asked of the state in between. */
  function ComposeIn(ax: seq<Clauses>, u1: Update, u2: Update): Update
  {
    var between := MidAxioms(ax, u1, u2);
    var mm := MidMap(u1, u2);
    Update(UpdatedJoin(u1.mod, u2.mod),
           Link(u1.tr, And(RenameDistinct(u2.tr, u1.tr), between), u1.mod, mm),
           Or(And(u1.pre, DiffFrame(u1.mod, u2.mod)),
              Link(u1.tr, And(RenameDistinct(u2.pre, u1.tr), between), u1.mod, mm)))
  }

  ghost predicate True(c: Clauses, s: State)
  {
    Holds(c, Mk(s, s, s))
  }

  ghost predicate AllTrue(ax: seq<Clauses>, s: State)
  {
    forall c :: c in ax ==> True(c, s)
  }

  lemma {:induction false} ConjunctionMeaning(ax: seq<Clauses>, v: Val)
    ensures Holds(Conjunction(ax), v) <==> forall c :: c in ax ==> Holds(c, v)
  {
    if ax != [] {
      ConjunctionMeaning(ax[..|ax| - 1], v);
      BothMeaning(Conjunction(ax[..|ax| - 1]), ax[|ax| - 1], v);
      AxiomLast(ax);
    }
  }

  lemma {:induction false} ConjunctionUsed(ax: seq<Clauses>)
    ensures forall x :: x in Used(Conjunction(ax)) ==> exists c :: c in ax && x in Used(c)
  {
    if ax != [] {
      var init, last := ax[..|ax| - 1], ax[|ax| - 1];
      ConjunctionUsed(init);
      BothUsed(Conjunction(init), last);
      forall x | x in Used(Conjunction(ax))
        ensures exists c :: c in ax && x in Used(c)
      {
        if x in Used(last) {
          assert last in ax;
        } else {
          var c :| c in init && x in Used(c);
          assert c in ax;
        }
      }
    }
  }

  lemma BothUsed(c: Clauses, d: Clauses)
    ensures Used(Both(c, d)) == Used(c) + Used(d)
  {
  }

  lemma AxiomLast(ax: seq<Clauses>)
    requires ax != []
    ensures forall c :: c in ax <==> c in ax[..|ax| - 1] || c == ax[|ax| - 1]
  {
    assert ax == ax[..|ax| - 1] + [ax[|ax| - 1]];
  }

  lemma BetweenFacts(ax: seq<Clauses>, u1: Update, u2: Update)
    requires Axioms(ax)
    ensures StateAxiom(MidAxioms(ax, u1, u2))
  {
    hide Uses, Mid;
    ConjunctionUsed(Using(Mid(u1, u2), ax));
  }

  /** An axiom is read in the present state. */
  lemma AxiomAt(c: Clauses, o: State, m: State, t: State, w: Val)
    requires StateAxiom(c) && SameProgram(Mk(o, m, t), w)
    ensures Holds(c, w) <==> True(c, m)
  {
    hide Holds;
    forall x | x in Used(c)
      ensures w(x) == Mk(m, m, m)(x)
    {
      ProgramValue(o, m, t, w, x);
      MkIs(o, m, t, x);
      MkIs(m, m, m, x);
    }
    Coincide(c, w, Mk(m, m, m));
  }

  /** The clauses of the second update together with the axioms. */
  lemma BetweenEx(c: Clauses, between: Clauses, o: State, m: State, t: State)
    requires StateAxiom(between)
    ensures Ex(Both(c, between), Mk(o, m, t)) <==> Ex(c, Mk(o, m, t)) && True(between, m)
  {
    hide Holds, True;
    forall w: Val | SameProgram(Mk(o, m, t), w)
      ensures Holds(Both(c, between), w) <==> Holds(c, w) && True(between, m)
    {
      AxiomAt(between, o, m, t, w);
      assert Holds(Both(c, between), w) <==> Holds(c, w) && Holds(between, w) by { BothMeaning(c, between, w); }
    }
  }

  lemma BothMeaning(c: Clauses, d: Clauses, w: Val)
    ensures Holds(Both(c, d), w) <==> Holds(c, w) && Holds(d, w)
  {
  }

  /** Adding the axioms after renaming the existential symbols apart is adding them before. */
  lemma LinkBetween(tr: Clauses, c: Clauses, between: Clauses, rd: Renaming, mod: seq<Id>, mm: Renaming, v: Val)
    requires StateAxiom(between) && forall y :: y in rd ==> y.kind.Skolem?
    ensures Ex(Link(tr, And(Rename(c, rd), between), mod, mm), v) <==>
            Ex(Link(tr, Rename(Both(c, between), rd), mod, mm), v)
  {
    hide Holds;
    forall w: Val
      ensures Holds(Link(tr, And(Rename(c, rd), between), mod, mm), w) <==>
              Holds(Link(tr, Rename(Both(c, between), rd), mod, mm), w)
    {
      LinkBetweenHolds(tr, c, between, rd, mod, mm, w);
    }
  }

  lemma LinkBetweenHolds(tr: Clauses, c: Clauses, between: Clauses, rd: Renaming, mod: seq<Id>, mm: Renaming, w: Val)
    requires StateAxiom(between) && forall y :: y in rd ==> y.kind.Skolem?
    ensures Holds(Link(tr, And(Rename(c, rd), between), mod, mm), w) <==>
            Holds(Link(tr, Rename(Both(c, between), rd), mod, mm), w)
  {
    hide Holds, And, MidNew, MidBase, Rename;
    var q := Pull(w, MidBase(mod, mm));
    var c1, c2 := And(Rename(c, rd), between), Rename(Both(c, between), rd);
    AndMeaning(Rename(tr, MidNew(mod, mm)), Rename(c1, MidBase(mod, mm)), w);
    AndMeaning(Rename(tr, MidNew(mod, mm)), Rename(c2, MidBase(mod, mm)), w);
    RenameMeaning(c1, MidBase(mod, mm), w);
    RenameMeaning(c2, MidBase(mod, mm), w);
    AndMeaning(Rename(c, rd), between, q);
    RenameMeaning(c, rd, q);
    RenameMeaning(Both(c, between), rd, q);
    BothMeaning(c, between, Pull(q, rd));
    forall x | x in Used(between)
      ensures Pull(q, rd)(x) == q(x)
    {
      LookupOut(rd, x);
    }
    Coincide(between, Pull(q, rd), q);
  }

  /** What the link with axioms means. */
  lemma LinkIn(ax: seq<Clauses>, u1: Update, u2: Update, c: Clauses, o: State, s: State, t: State)
    requires WellFormed(u1) && Axioms(ax) && Unnamed(ax, u1, u2) && (c == u2.tr || c == u2.pre)
    requires forall i: Id :: i !in u1.mod && i !in u2.mod ==> t(i) == s(i)
    ensures Ex(Link(u1.tr, And(RenameDistinct(c, u1.tr), MidAxioms(ax, u1, u2)), u1.mod, MidMap(u1, u2)),
               Mk(o, s, t)) <==>
            exists m: State :: Passes(u1, u2, c, o, s, m, t) && True(MidAxioms(ax, u1, u2), m)
  {
    hide Ex, Link, Apart, MidMap, MidAxioms, True, NewOnly, NoRigid, Used;
    var rd, mm, between := DistinctMap(c, u1.tr), MidMap(u1, u2), MidAxioms(ax, u1, u2);
    BetweenFacts(ax, u1, u2);
    LinkBetween(u1.tr, c, between, rd, u1.mod, mm, Mk(o, s, t));
    ApartFrom(mm, UsedNames(u1.tr));
    if Ex(Link(u1.tr, Rename(Both(c, between), rd), u1.mod, mm), Mk(o, s, t)) {
      var m := LinkBackward(u1.tr, Both(c, between), rd, mm, u1.mod, o, s, t);
      BetweenEx(c, between, o, m, t);
    }
    forall m: State | Passes(u1, u2, c, o, s, m, t) && True(between, m)
      ensures Ex(Link(u1.tr, Rename(Both(c, between), rd), u1.mod, mm), Mk(o, s, t))
    {
      BetweenEx(c, between, o, m, t);
      BothDistinct(c, between, u1.tr);
      MidApart(ax, u1, u2, c);
      LinkForward(u1.tr, Both(c, between), rd, mm, u1.mod, o, s, m, t);
    }
  }

  /** m is a state after the first update and before the clauses of the second. */
  ghost predicate Passes(u1: Update, u2: Update, c: Clauses, o: State, s: State, m: State, t: State)
  {
    && Ex(u1.tr, Mk(o, s, m)) && (forall i: Id :: i !in u1.mod ==> m(i) == s(i))
    && Ex(c, Mk(o, m, t)) && (forall i: Id :: i in u1.mod && i !in u2.mod ==> t(i) == m(i))
  }

  /** No axiom uses the name of a mid variable. */
  ghost predicate Unnamed(ax: seq<Clauses>, u1: Update, u2: Update)
  {
    forall x :: x in MidMap(u1, u2) ==> MidMap(u1, u2)[x].id.name !in UsedNames(MidAxioms(ax, u1, u2))
  }

  lemma BothDistinct(c: Clauses, between: Clauses, d: Clauses)
    requires StateAxiom(between)
    ensures forall y :: y in DistinctMap(c, d) <==> y in Used(Both(c, between)) && y.kind.Skolem?
  {
  }

  lemma MidApart(ax: seq<Clauses>, u1: Update, u2: Update, c: Clauses)
    requires Axioms(ax) && Unnamed(ax, u1, u2) && (c == u2.tr || c == u2.pre)
    ensures var rd := DistinctMap(c, u1.tr);
            Apart(MidMap(u1, u2), UsedNames(Rename(Both(c, MidAxioms(ax, u1, u2)), rd)))
    ensures forall x :: x in MidMap(u1, u2) <==> x.kind.Base? && x.id in u1.mod && x.id in u2.mod
  {
    var rd, between := DistinctMap(c, u1.tr), MidAxioms(ax, u1, u2);
    BetweenFacts(ax, u1, u2);
    hide Used, MidAxioms;
    RenamedAxiom(between, rd);
    assert UsedNames(Rename(Both(c, between), rd)) == UsedNames(Rename(c, rd)) + UsedNames(between) by {
      BothNames(c, between, rd);
    }
  }

  lemma RenamedAxiom(between: Clauses, rd: Renaming)
    requires StateAxiom(between) && forall y :: y in rd ==> y.kind.Skolem?
    ensures Used(Rename(between, rd)) == Used(between)
  {
    RenameUsed(between, rd);
    forall x | x in Used(between)
      ensures Lookup(rd, x) == x
    {
      LookupOut(rd, x);
    }
    assert Image(rd, Used(between)) == Used(between);
  }

  lemma BothNames(c: Clauses, between: Clauses, rd: Renaming)
    requires Used(Rename(between, rd)) == Used(between)
    ensures UsedNames(Rename(Both(c, between), rd)) == UsedNames(Rename(c, rd)) + UsedNames(between)
  {
    assert Used(Rename(Both(c, between), rd)) == Used(Rename(c, rd)) + Used(Rename(between, rd));
  }

  /** The state in between respects the axioms that mention a symbol changed by both updates. */
  ghost predicate Respects(ax: seq<Clauses>, u1: Update, u2: Update, m: State)
  {
    forall c :: c in ax && Uses(c, Mid(u1, u2)) ==> True(c, m)
  }

  lemma RespectsIs(ax: seq<Clauses>, u1: Update, u2: Update, m: State)
    ensures True(MidAxioms(ax, u1, u2), m) <==> Respects(ax, u1, u2, m)
  {
    hide Holds, Uses, Mid;
    ConjunctionMeaning(Using(Mid(u1, u2), ax), Mk(m, m, m));
  }

  /** Composition under axioms is relational composition through a state that respects the axioms about the
      symbols that both updates change. */
  lemma ComposeInRel(ax: seq<Clauses>, u1: Update, u2: Update, o: State, s: State, t: State)
    requires WellFormed(u1) && WellFormed(u2) && Axioms(ax) && Unnamed(ax, u1, u2)
    ensures Rel(ComposeIn(ax, u1, u2), o, s, t) <==>
            exists m: State :: Rel(u1, o, s, m) && Respects(ax, u1, u2, m) && Rel(u2, o, m, t)
  {
    hide Link, Ex, NoRigid, NewOnly, Or, Axioms, MidAxioms, True, Respects, RenameDistinct, And, Unnamed;
    if forall i: Id :: i !in u1.mod && i !in u2.mod ==> t(i) == s(i) {
      LinkIn(ax, u1, u2, u2.tr, o, s, t);
    }
    forall m: State
      ensures True(MidAxioms(ax, u1, u2), m) <==> Respects(ax, u1, u2, m)
      ensures Rel(u1, o, s, m) && Rel(u2, o, m, t) <==>
              Passes(u1, u2, u2.tr, o, s, m, t) && forall i: Id :: i !in u1.mod && i !in u2.mod ==> t(i) == s(i)
    {
      RespectsIs(ax, u1, u2, m);
      PassesRel(u1, u2, o, s, m, t);
    }
  }

  lemma PassesRel(u1: Update, u2: Update, o: State, s: State, m: State, t: State)
    ensures Rel(u1, o, s, m) && Rel(u2, o, m, t) <==>
            && Passes(u1, u2, u2.tr, o, s, m, t)
            && (forall i: Id :: i !in u1.mod && i !in u2.mod ==> t(i) == s(i))
  {
    hide Ex;
    if Passes(u1, u2, u2.tr, o, s, m, t) && (forall i: Id :: i !in u1.mod && i !in u2.mod ==> t(i) == s(i)) {
      forall i: Id | i !in u2.mod
        ensures t(i) == m(i)
      {
        if i !in u1.mod { assert m(i) == s(i) == t(i); }
      }
    }
  }

  /** It fails where the first update does, or where the first leads to such a state from which the second fails. */
  lemma ComposeInFails(ax: seq<Clauses>, u1: Update, u2: Update, o: State, s: State)
    requires WellFormed(u1) && WellFormed(u2) && Axioms(ax) && Unnamed(ax, u1, u2)
    ensures Fails(ComposeIn(ax, u1, u2), o, s) <==>
            || Fails(u1, o, s)
            || exists m: State :: Rel(u1, o, s, m) && Respects(ax, u1, u2, m) && Fails(u2, o, m)
  {
    hide Link, Ex, NoRigid, NewOnly, Or, Axioms, MidAxioms, True, Respects, RenameDistinct, And, Unnamed, DiffFrame;
    var first := And(u1.pre, DiffFrame(u1.mod, u2.mod));
    var second := Link(u1.tr, And(RenameDistinct(u2.pre, u1.tr), MidAxioms(ax, u1, u2)), u1.mod, MidMap(u1, u2));
    forall n: State
      ensures Ex(ComposeIn(ax, u1, u2).pre, Mk(o, s, n)) <==> Ex(first, Mk(o, s, n)) || Ex(second, Mk(o, s, n))
    {
      OrMeaning(first, second, Mk(o, s, n));
    }
    FramedFails(u1.pre, u1.mod, u2.mod, o, s);
    forall n: State | Ex(second, Mk(o, s, n))
      ensures exists m: State :: Rel(u1, o, s, m) && Respects(ax, u1, u2, m) && Fails(u2, o, m)
    {
      var m := SecondFails(ax, u1, u2, o, s, n);
    }
    forall m: State | Rel(u1, o, s, m) && Respects(ax, u1, u2, m) && Fails(u2, o, m)
      ensures exists n: State :: Ex(second, Mk(o, s, n))
    {
      var n := SecondReached(ax, u1, u2, o, s, m);
    }
  }

  lemma SecondFails(ax: seq<Clauses>, u1: Update, u2: Update, o: State, s: State, n: State) returns (m: State)
    requires WellFormed(u1) && Axioms(ax) && Unnamed(ax, u1, u2)
    requires Ex(Link(u1.tr, And(RenameDistinct(u2.pre, u1.tr), MidAxioms(ax, u1, u2)), u1.mod, MidMap(u1, u2)),
                Mk(o, s, n))
    ensures Rel(u1, o, s, m) && Respects(ax, u1, u2, m) && Fails(u2, o, m)
  {
    hide Link, Ex, NoRigid, NewOnly, MidAxioms, True, Respects, MidMap, Apart;
    var rd, mm, between := DistinctMap(u2.pre, u1.tr), MidMap(u1, u2), MidAxioms(ax, u1, u2);
    BetweenFacts(ax, u1, u2);
    LinkBetween(u1.tr, u2.pre, between, rd, u1.mod, mm, Mk(o, s, n));
    ApartFrom(mm, UsedNames(u1.tr));
    m := LinkBackward(u1.tr, Both(u2.pre, between), rd, mm, u1.mod, o, s, n);
    BetweenEx(u2.pre, between, o, m, n);
    RespectsIs(ax, u1, u2, m);
  }

  lemma SecondReached(ax: seq<Clauses>, u1: Update, u2: Update, o: State, s: State, m: State) returns (n: State)
    requires WellFormed(u1) && WellFormed(u2) && Axioms(ax) && Unnamed(ax, u1, u2)
    requires Rel(u1, o, s, m) && Respects(ax, u1, u2, m) && Fails(u2, o, m)
    ensures Ex(Link(u1.tr, And(RenameDistinct(u2.pre, u1.tr), MidAxioms(ax, u1, u2)), u1.mod, MidMap(u1, u2)),
               Mk(o, s, n))
  {
    hide Link, Ex, NoRigid, NewOnly, MidAxioms, True, Respects, MidMap, Apart, Used, Axioms;
    var rd, mm, between := DistinctMap(u2.pre, u1.tr), MidMap(u1, u2), MidAxioms(ax, u1, u2);
    var n0: State :| Ex(u2.pre, Mk(o, m, n0));
    n := Override(n0, u1.mod, u2.mod, m);
    OtherNew(u2.pre, u2.mod, o, m, n0, n);
    BetweenFacts(ax, u1, u2);
    RespectsIs(ax, u1, u2, m);
    BetweenEx(u2.pre, between, o, m, n);
    BothDistinct(u2.pre, between, u1.tr);
    MidApart(ax, u1, u2, u2.pre);
    ApartFrom(mm, UsedNames(u1.tr));
    LinkForward(u1.tr, Both(u2.pre, between), rd, mm, u1.mod, o, s, m, n);
    LinkBetween(u1.tr, u2.pre, between, rd, u1.mod, mm, Mk(o, s, n));
  }

  // ----- the axioms that are not asked -----

  /** The axiom does not tie a symbol that only the first update changes to one that only the second changes. */
  predicate Unmixed(c: Clauses, u1: Update, u2: Update)
  {
    || (forall x :: x in Used(c) ==> x.id !in u1.mod)
    || (forall x :: x in Used(c) ==> x.id !in u2.mod)
  }

  lemma TrueSame(c: Clauses, s: State, m: State)
    requires StateAxiom(c) && True(c, s) && forall x :: x in Used(c) ==> m(x.id) == s(x.id)
    ensures True(c, m)
  {
    hide Holds;
    forall x | x in Used(c)
      ensures Mk(m, m, m)(x) == Mk(s, s, s)(x)
    {
      MkIs(m, m, m, x);
      MkIs(s, s, s, x);
    }
    Coincide(c, Mk(s, s, s), Mk(m, m, m));
  }

  /** Between states in which the axioms are true, every state in between that respects the axioms asked makes
      all of them true, if those that are not asked are unmixed. */
  lemma MiddleTrue(ax: seq<Clauses>, u1: Update, u2: Update, o: State, s: State, m: State, t: State)
    requires Axioms(ax) && AllTrue(ax, s) && AllTrue(ax, t)
    requires Rel(u1, o, s, m) && Rel(u2, o, m, t) && Respects(ax, u1, u2, m)
    requires forall c :: c in ax ==> Uses(c, Mid(u1, u2)) || Unmixed(c, u1, u2)
    ensures AllTrue(ax, m)
  {
    hide True, Ex;
    forall c | c in ax
      ensures True(c, m)
    {
      if !Uses(c, Mid(u1, u2)) {
        if forall x :: x in Used(c) ==> x.id !in u1.mod {
          TrueSame(c, s, m);
        } else {
          TrueSame(c, t, m);
        }
      }
    }
  }

  /** After the first update, as far as the axioms that are not asked can see. */
  ghost function Between(u1: Update, s: State, t: State): State
  {
    (i: Id) => if i in u1.mod then t(i) else s(i)
  }

  /** A state in between that respects the axioms asked makes all of them true exactly if those that are not asked
      are true of the first update's symbols as they are after both updates and the others as they were before. */
  lemma MiddleExact(ax: seq<Clauses>, u1: Update, u2: Update, o: State, s: State, m: State, t: State)
    requires Axioms(ax) && Rel(u1, o, s, m) && Rel(u2, o, m, t) && Respects(ax, u1, u2, m)
    ensures AllTrue(ax, m) <==> forall c :: c in ax && !Uses(c, Mid(u1, u2)) ==> True(c, Between(u1, s, t))
  {
    hide True, Ex;
    forall c | c in ax && !Uses(c, Mid(u1, u2))
      ensures True(c, m) <==> True(c, Between(u1, s, t))
    {
      assert forall x :: x in Used(c) ==> Between(u1, s, t)(x.id) == m(x.id);
      if True(c, m) { TrueSame(c, m, Between(u1, s, t)); }
      if True(c, Between(u1, s, t)) { TrueSame(c, Between(u1, s, t), m); }
    }
  }
}
