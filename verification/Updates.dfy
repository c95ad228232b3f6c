/**
 The transition-relation calculus.  An update is a list of modified symbols, a transition formula over
 the symbols and their new_ versions, and a negated precondition.  Sequential composition, join,
 conditional, hiding and the binding of old_ symbols work by renaming with fresh names; each is shown
 to be the expected operation on relations between states and on sets of failing states.
 */
module Updates {
  import opened Names
  import opened Logic
  import opened ClauseOps

  datatype Update = Update(mod: seq<Id>, tr: Clauses, pre: Clauses)

  // ----- what an update means -----

  /** The valuation that reads old_ symbols in o, plain symbols in s and new_ symbols in t. */
  ghost function Mk(o: State, s: State, t: State): Val
  {
    (x: Sym) => MkAt(o, s, t, x)
  }

  ghost function MkAt(o: State, s: State, t: State, x: Sym): Table
  {
    if x.kind.Base? then s(x.id) else if x.kind.New? then t(x.id) else if x.kind.Old? then o(x.id) else Zero()
  }

  /** The transitions: unmodified symbols keep their value, and the existential symbols have values that
      satisfy the transition formula. */
  ghost predicate Rel(u: Update, o: State, s: State, t: State)
  {
    (forall i: Id :: i !in u.mod ==> t(i) == s(i)) && Ex(u.tr, Mk(o, s, t))
  }

  /** The failing states: the negated precondition is satisfiable, new_ symbols included. */
  ghost predicate Fails(u: Update, o: State, s: State)
  {
    exists n: State :: Ex(u.pre, Mk(o, s, n))
  }

  /** new_ symbols occur for modified symbols only. */
  predicate NewOnly(c: Clauses, mod: seq<Id>)
  {
    forall x :: x in Used(c) && x.kind.New? ==> x.id in mod
  }

  predicate WellFormed(u: Update)
  {
    NewOnly(u.tr, u.mod) && NewOnly(u.pre, u.mod) && NoRigid(u.tr)
  }

  function NullUpdate(): Update
  {
    Update([], TOP, BOT)
  }

  // ----- sequential composition -----

  function BaseSyms(ids: seq<Id>): (r: seq<Sym>)
    ensures |r| == |ids| && forall k :: 0 <= k < |ids| ==> r[k] == BaseSym(ids[k])
  {
    seq(|ids|, k requires 0 <= k < |ids| => BaseSym(ids[k]))
  }

  /** new_x becomes the mid variable of x. */
  function MidNew(mod: seq<Id>, mm: Renaming): Renaming
  {
    map i | i in mod && BaseSym(i) in mm :: NewSym(i) := mm[BaseSym(i)]
  }

  /** x becomes its mid variable if it has one, else new_x. */
  function MidBase(mod: seq<Id>, mm: Renaming): Renaming
  {
    map i | i in mod :: BaseSym(i) := if BaseSym(i) in mm then mm[BaseSym(i)] else NewSym(i)
  }

  function Link(tr: Clauses, c: Clauses, mod: seq<Id>, mm: Renaming): Clauses
  {
    And(Rename(tr, MidNew(mod, mm)), Rename(c, MidBase(mod, mm)))
  }

  /** The renaming of mid variables of a composition. */
  function MidMap(u1: Update, u2: Update): (mm: Renaming)
    ensures forall x :: x in mm <==> x.kind.Base? && x.id in u1.mod && x.id in u2.mod
    ensures Apart(mm, UsedNames(u1.tr)) && Apart(mm, UsedNames(RenameDistinct(u2.tr, u1.tr)))
    ensures Apart(mm, UsedNames(RenameDistinct(u2.pre, u1.tr)))
  {
    var mid := Select(u1.mod, u2.mod, true);
    var mm := RenameAll("__m_", BaseSyms(mid), MidUsed(u1, u2)).m;
    assert forall x :: x in mm <==> x.kind.Base? && x.id in mid by {
      forall x
        ensures x in mm <==> x.kind.Base? && x.id in mid
      {
        BaseSymsHas(mid, x);
      }
    }
    mm
  }

  function MidUsed(u1: Update, u2: Update): set<string>
  {
    UsedNames(u1.tr) + UsedNames(RenameDistinct(u2.tr, u1.tr)) + UsedNames(u1.pre) +
    UsedNames(RenameDistinct(u2.pre, u1.tr))
  }

  lemma BaseSymsHas(ids: seq<Id>, x: Sym)
    ensures x in BaseSyms(ids) <==> x.kind.Base? && x.id in ids
  {
    if x.kind.Base? && x.id in ids {
      var k :| 0 <= k < |ids| && ids[k] == x.id;
      assert BaseSyms(ids)[k] == x;
    }
  }

  function Compose(u1: Update, u2: Update): Update
  {
    var tr2 := RenameDistinct(u2.tr, u1.tr);
    var pre2 := RenameDistinct(u2.pre, u1.tr);
    var mm := MidMap(u1, u2);
    Update(UpdatedJoin(u1.mod, u2.mod),
           Link(u1.tr, tr2, u1.mod, mm),
           Or(And(u1.pre, DiffFrame(u1.mod, u2.mod)), Link(u1.tr, pre2, u1.mod, mm)))
  }

  /** The mid variables belong to modified symbols, and no clause uses their names. */
  ghost predicate MidOk(mm: Renaming, mod: seq<Id>, used: set<string>)
  {
    (forall x :: x in mm ==> x.kind.Base? && x.id in mod) && Apart(mm, used)
  }

  /** The valuation of the composed clauses: mid variables read m, renamed symbols of the second clauses
      read w2, the other existential symbols w1. */
  ghost function Weave(mm: Renaming, rd: Renaming, m: State, w1: Val, w2: Val, v: Val): Val
  {
    (x: Sym) => WeaveAt(mm, rd, m, w1, w2, v, x)
  }

  ghost function WeaveAt(mm: Renaming, rd: Renaming, m: State, w1: Val, w2: Val, v: Val, x: Sym): Table
  {
    if Program(x) then v(x)
    else if x.kind.Rigid? then w2(x)
    else if x in mm.Values then m(Inverse(mm, x).id)
    else if x in rd.Values then w2(Inverse(rd, x))
    else w1(x)
  }

  lemma MkIs(o: State, s: State, t: State, x: Sym)
    ensures Mk(o, s, t)(x) == MkAt(o, s, t, x)
  {
  }

  lemma WeaveIs(mm: Renaming, rd: Renaming, m: State, w1: Val, w2: Val, v: Val, x: Sym)
    ensures Weave(mm, rd, m, w1, w2, v)(x) == WeaveAt(mm, rd, m, w1, w2, v, x)
  {
  }

  lemma ProgramValue(o: State, s: State, t: State, w: Val, x: Sym)
    requires SameProgram(Mk(o, s, t), w) && Program(x)
    ensures w(x) == MkAt(o, s, t, x)
  {
    MkIs(o, s, t, x);
  }

  lemma LookupMidNew(mod: seq<Id>, mm: Renaming, x: Sym)
    ensures Lookup(MidNew(mod, mm), x) ==
            if x.kind.New? && x.id in mod && BaseSym(x.id) in mm then mm[BaseSym(x.id)] else x
  {
    if x.kind.New? {
      assert x == NewSym(x.id);
    }
  }

  lemma LookupMidBase(mod: seq<Id>, mm: Renaming, x: Sym)
    ensures Lookup(MidBase(mod, mm), x) ==
            if x.kind.Base? && x.id in mod then (if x in mm then mm[x] else NewSym(x.id)) else x
  {
    if x.kind.Base? {
      assert x == BaseSym(x.id);
    }
  }

  lemma WeaveFirst(tr: Clauses, mm: Renaming, rd: Renaming, mod: seq<Id>,
                   o: State, s: State, m: State, t: State, w1: Val, w2: Val, x: Sym)
    requires Apart(rd, UsedNames(tr)) && MidOk(mm, mod, UsedNames(tr))
    requires forall i :: i in mod && BaseSym(i) !in mm ==> t(i) == m(i)
    requires NewOnly(tr, mod) && NoRigid(tr)
    requires SameProgram(Mk(o, s, m), w1)
    requires x in Used(tr)
    ensures Pull(Weave(mm, rd, m, w1, w2, Mk(o, s, t)), MidNew(mod, mm))(x) == w1(x)
  {
    var v := Mk(o, s, t);
    var w := Weave(mm, rd, m, w1, w2, v);
    var y := Lookup(MidNew(mod, mm), x);
    LookupMidNew(mod, mm, x);
    WeaveIs(mm, rd, m, w1, w2, v, y);
    if x.kind.New? && BaseSym(x.id) in mm {
      InverseIs(mm, UsedNames(tr), BaseSym(x.id));
      ProgramValue(o, s, m, w1, x);
    } else if Program(x) {
      MkIs(o, s, t, x);
      ProgramValue(o, s, m, w1, x);
    } else {
      NotIntroduced(mm, tr, x);
      NotIntroduced(rd, tr, x);
    }
  }

  lemma WeaveSecond(c: Clauses, mm: Renaming, rd: Renaming, mod: seq<Id>,
                    o: State, s: State, m: State, t: State, w1: Val, w2: Val, x: Sym)
    requires (forall y :: y in rd <==> y in Used(c) && y.kind.Skolem?)
    requires exists used :: Apart(rd, used)
    requires MidOk(mm, mod, UsedNames(Rename(c, rd)))
    requires forall i :: i !in mod ==> m(i) == s(i)
    requires forall i :: i in mod && BaseSym(i) !in mm ==> t(i) == m(i)
    requires SameProgram(Mk(o, m, t), w2)
    requires x in Used(c)
    ensures Pull(Pull(Weave(mm, rd, m, w1, w2, Mk(o, s, t)), MidBase(mod, mm)), rd)(x) == w2(x)
  {
    var v := Mk(o, s, t);
    var w := Weave(mm, rd, m, w1, w2, v);
    var y := Lookup(rd, x);
    var z := Lookup(MidBase(mod, mm), y);
    LookupMidBase(mod, mm, y);
    WeaveIs(mm, rd, m, w1, w2, v, z);
    if x.kind.Skolem? {
      var used :| Apart(rd, used);
      LookupIn(rd, x);
      InverseIs(rd, used, x);
      RenamedUsed(c, rd, x);
      NotIntroduced(mm, Rename(c, rd), y);
    } else {
      LookupOut(rd, x);
      if Program(x) {
        ProgramValue(o, m, t, w2, x);
        MkIs(o, s, t, z);
        if x.kind.Base? && x in mm {
          InverseIs(mm, UsedNames(Rename(c, rd)), x);
        }
      }
    }
  }

  /** Two steps through a middle state satisfy the composed clauses. */
  lemma LinkForward(tr: Clauses, c: Clauses, rd: Renaming, mm: Renaming, mod: seq<Id>,
                    o: State, s: State, m: State, t: State)
    requires (forall y :: y in rd <==> y in Used(c) && y.kind.Skolem?)
    requires Apart(rd, UsedNames(tr))
    requires MidOk(mm, mod, UsedNames(tr)) && MidOk(mm, mod, UsedNames(Rename(c, rd)))
    requires NewOnly(tr, mod) && NoRigid(tr)
    requires forall i :: i !in mod ==> m(i) == s(i)
    requires forall i :: i in mod && BaseSym(i) !in mm ==> t(i) == m(i)
    requires Ex(tr, Mk(o, s, m)) && Ex(c, Mk(o, m, t))
    ensures Ex(Link(tr, Rename(c, rd), mod, mm), Mk(o, s, t))
  {
    hide Holds, Rename, Used, Weave, Pull;
    var w1: Val :| SameProgram(Mk(o, s, m), w1) && Holds(tr, w1);
    var w2: Val :| SameProgram(Mk(o, m, t), w2) && Holds(c, w2);
    var w := Weave(mm, rd, m, w1, w2, Mk(o, s, t));
    var p := Pull(w, MidNew(mod, mm));
    var q := Pull(w, MidBase(mod, mm));
    forall x | x in Used(tr)
      ensures p(x) == w1(x)
    {
      WeaveFirst(tr, mm, rd, mod, o, s, m, t, w1, w2, x);
    }
    forall x | x in Used(c)
      ensures Pull(q, rd)(x) == w2(x)
    {
      WeaveSecond(c, mm, rd, mod, o, s, m, t, w1, w2, x);
    }
    Coincide(tr, p, w1);
    Coincide(c, Pull(q, rd), w2);
    RenameMeaning(tr, MidNew(mod, mm), w);
    RenameMeaning(Rename(c, rd), MidBase(mod, mm), w);
    RenameMeaning(c, rd, q);
    AndMeaning(Rename(tr, MidNew(mod, mm)), Rename(Rename(c, rd), MidBase(mod, mm)), w);
    WeaveProgram(mm, rd, m, w1, w2, Mk(o, s, t));
  }

  lemma WeaveProgram(mm: Renaming, rd: Renaming, m: State, w1: Val, w2: Val, v: Val)
    ensures SameProgram(v, Weave(mm, rd, m, w1, w2, v))
  {
    forall x: Sym | Program(x)
      ensures v(x) == Weave(mm, rd, m, w1, w2, v)(x)
    {
      WeaveIs(mm, rd, m, w1, w2, v, x);
    }
  }

  /** The middle state that a valuation of the composed clauses passes through. */
  ghost function Middle(mod: seq<Id>, s: State, p: Val): State
  {
    (i: Id) => if i in mod then p(NewSym(i)) else s(i)
  }

  lemma MiddleIs(mod: seq<Id>, s: State, p: Val, i: Id)
    ensures Middle(mod, s, p)(i) == if i in mod then p(NewSym(i)) else s(i)
  {
  }

  /** The program symbols as in the transition, the others as in the valuation. */
  ghost function Settled(o: State, s: State, t: State, p: Val): Val
  {
    (x: Sym) => if Program(x) then Mk(o, s, t)(x) else p(x)
  }

  lemma SettledHolds(c: Clauses, o: State, s: State, t: State, p: Val)
    requires Holds(c, p) && forall x :: x in Used(c) && Program(x) ==> p(x) == Mk(o, s, t)(x)
    ensures Holds(c, Settled(o, s, t, p)) && SameProgram(Mk(o, s, t), Settled(o, s, t, p))
    ensures forall x: Sym :: !Program(x) ==> Settled(o, s, t, p)(x) == p(x)
  {
    hide Holds, Used;
    Coincide(c, p, Settled(o, s, t, p));
  }

  lemma LinkHolds(tr: Clauses, c: Clauses, rd: Renaming, mm: Renaming, mod: seq<Id>, w: Val)
    requires Holds(Link(tr, Rename(c, rd), mod, mm), w)
    ensures Holds(tr, Pull(w, MidNew(mod, mm))) && Holds(c, Pull(Pull(w, MidBase(mod, mm)), rd))
  {
    hide Holds, MidNew, MidBase, Pull, And;
    AndMeaning(Rename(tr, MidNew(mod, mm)), Rename(Rename(c, rd), MidBase(mod, mm)), w);
    RenameMeaning(tr, MidNew(mod, mm), w);
    RenameMeaning(Rename(c, rd), MidBase(mod, mm), w);
    RenameMeaning(c, rd, Pull(w, MidBase(mod, mm)));
  }

  lemma MiddleState(mm: Renaming, mod: seq<Id>, o: State, s: State, t: State, w: Val) returns (m: State)
    requires SameProgram(Mk(o, s, t), w)
    ensures forall i: Id :: m(i) == if i in mod then Pull(w, MidNew(mod, mm))(NewSym(i)) else s(i)
    ensures forall i: Id :: i in mod && BaseSym(i) !in mm ==> t(i) == m(i)
  {
    var p := Pull(w, MidNew(mod, mm));
    m := Middle(mod, s, p);
    forall i: Id
      ensures m(i) == if i in mod then p(NewSym(i)) else s(i)
      ensures i in mod && BaseSym(i) !in mm ==> t(i) == m(i)
    {
      MiddleIs(mod, s, p, i);
      LookupMidNew(mod, mm, NewSym(i));
      ProgramValue(o, s, t, w, NewSym(i));
    }
  }

  lemma FirstReads(tr: Clauses, mm: Renaming, mod: seq<Id>, o: State, s: State, t: State, m: State, w: Val)
    requires NewOnly(tr, mod) && SameProgram(Mk(o, s, t), w)
    requires forall i: Id :: m(i) == if i in mod then Pull(w, MidNew(mod, mm))(NewSym(i)) else s(i)
    ensures forall x :: x in Used(tr) && Program(x) ==> Pull(w, MidNew(mod, mm))(x) == Mk(o, s, m)(x)
  {
    forall x | x in Used(tr) && Program(x)
      ensures Pull(w, MidNew(mod, mm))(x) == Mk(o, s, m)(x)
    {
      MkIs(o, s, m, x);
      LookupMidNew(mod, mm, x);
      ProgramValue(o, s, t, w, x);
    }
  }

  lemma SecondReads(rd: Renaming, mm: Renaming, mod: seq<Id>, o: State, s: State, t: State, m: State, w: Val)
    requires (forall y :: y in rd ==> y.kind.Skolem?) && SameProgram(Mk(o, s, t), w)
    requires forall x :: x in mm ==> x.kind.Base? && x.id in mod
    requires forall i: Id :: m(i) == if i in mod then Pull(w, MidNew(mod, mm))(NewSym(i)) else s(i)
    ensures SameProgram(Mk(o, m, t), Pull(Pull(w, MidBase(mod, mm)), rd))
  {
    forall x | Program(x)
      ensures Pull(Pull(w, MidBase(mod, mm)), rd)(x) == Mk(o, m, t)(x)
    {
      MkIs(o, m, t, x);
      LookupOut(rd, x);
      LookupMidBase(mod, mm, x);
      ProgramValue(o, s, t, w, x);
      if x.kind.Base? && x.id in mod {
        LookupMidNew(mod, mm, NewSym(x.id));
      }
    }
  }

  /** A valuation of the composed clauses is a middle state and a valuation of each part; the existential
      symbols of the parts are read through the renamings. */
  lemma LinkSplit(tr: Clauses, c: Clauses, rd: Renaming, mm: Renaming, mod: seq<Id>,
                  o: State, s: State, t: State, w: Val) returns (m: State, w1: Val, w2: Val)
    requires (forall y :: y in rd ==> y.kind.Skolem?)
    requires MidOk(mm, mod, {})
    requires NewOnly(tr, mod)
    requires SameProgram(Mk(o, s, t), w) && Holds(Link(tr, Rename(c, rd), mod, mm), w)
    ensures forall i :: i !in mod ==> m(i) == s(i)
    ensures forall i :: i in mod && BaseSym(i) !in mm ==> t(i) == m(i)
    ensures Holds(tr, w1) && SameProgram(Mk(o, s, m), w1) && Holds(c, w2) && SameProgram(Mk(o, m, t), w2)
    ensures forall x: Sym :: !Program(x) ==> w1(x) == Pull(w, MidNew(mod, mm))(x)
    ensures w2 == Pull(Pull(w, MidBase(mod, mm)), rd)
  {
    hide Holds, NewOnly, Pull, MidNew, MidBase, SameProgram, Used, Settled, Link;
    LinkHolds(tr, c, rd, mm, mod, w);
    m := MiddleState(mm, mod, o, s, t, w);
    FirstReads(tr, mm, mod, o, s, t, m, w);
    SecondReads(rd, mm, mod, o, s, t, m, w);
    SettledHolds(tr, o, s, m, Pull(w, MidNew(mod, mm)));
    w1 := Settled(o, s, m, Pull(w, MidNew(mod, mm)));
    w2 := Pull(Pull(w, MidBase(mod, mm)), rd);
  }

  lemma LinkBackward(tr: Clauses, c: Clauses, rd: Renaming, mm: Renaming, mod: seq<Id>,
                     o: State, s: State, t: State) returns (m: State)
    requires (forall y :: y in rd ==> y.kind.Skolem?)
    requires MidOk(mm, mod, {})
    requires NewOnly(tr, mod)
    requires Ex(Link(tr, Rename(c, rd), mod, mm), Mk(o, s, t))
    ensures forall i :: i !in mod ==> m(i) == s(i)
    ensures forall i :: i in mod && BaseSym(i) !in mm ==> t(i) == m(i)
    ensures Ex(tr, Mk(o, s, m)) && Ex(c, Mk(o, m, t))
  {
    hide Holds, Used, Link;
    var w: Val :| SameProgram(Mk(o, s, t), w) && Holds(Link(tr, Rename(c, rd), mod, mm), w);
    var w1, w2;
    m, w1, w2 := LinkSplit(tr, c, rd, mm, mod, o, s, t, w);
  }

  // ----- composition means relational composition -----

  /** The composed update is the relational composition. */
  lemma ComposeRel(u1: Update, u2: Update, o: State, s: State, t: State)
    requires WellFormed(u1) && WellFormed(u2)
    ensures Rel(Compose(u1, u2), o, s, t) <==> exists m: State :: Rel(u1, o, s, m) && Rel(u2, o, m, t)
  {
    hide Link, Ex, NoRigid, NewOnly, Apart, Or;
    var rd := DistinctMap(u2.tr, u1.tr);
    var mm := MidMap(u1, u2);
    ApartFrom(mm, UsedNames(u1.tr));
    if Rel(Compose(u1, u2), o, s, t) {
      var m := LinkBackward(u1.tr, u2.tr, rd, mm, u1.mod, o, s, t);
      assert Rel(u1, o, s, m) && Rel(u2, o, m, t);
    }
    forall m: State | Rel(u1, o, s, m) && Rel(u2, o, m, t)
      ensures Rel(Compose(u1, u2), o, s, t)
    {
      LinkForward(u1.tr, u2.tr, rd, mm, u1.mod, o, s, m, t);
    }
  }

  /** The composed update fails where the first does, or where it can lead to a failure of the second. */
  lemma ComposeFails(u1: Update, u2: Update, o: State, s: State)
    requires WellFormed(u1) && WellFormed(u2)
    ensures Fails(Compose(u1, u2), o, s) <==>
            Fails(u1, o, s) || exists m: State :: Rel(u1, o, s, m) && Fails(u2, o, m)
  {
    hide Link, Ex, NoRigid, NewOnly, Apart, Or, DiffFrame, And;
    var rd := DistinctMap(u2.pre, u1.tr);
    var mm := MidMap(u1, u2);
    ApartFrom(mm, UsedNames(u1.tr));
    var first := And(u1.pre, DiffFrame(u1.mod, u2.mod));
    var second := Link(u1.tr, Rename(u2.pre, rd), u1.mod, mm);
    assert Compose(u1, u2).pre == Or(first, second);
    forall n: State
      ensures Ex(Compose(u1, u2).pre, Mk(o, s, n)) <==> Ex(first, Mk(o, s, n)) || Ex(second, Mk(o, s, n))
    {
      OrMeaning(first, second, Mk(o, s, n));
    }
    FramedFails(u1.pre, u1.mod, u2.mod, o, s);
    forall n: State | Ex(second, Mk(o, s, n))
      ensures exists m: State :: Rel(u1, o, s, m) && Fails(u2, o, m)
    {
      var m := LinkBackward(u1.tr, u2.pre, rd, mm, u1.mod, o, s, n);
      assert Rel(u1, o, s, m) && Fails(u2, o, m);
    }
    forall m: State, n: State | Rel(u1, o, s, m) && Ex(u2.pre, Mk(o, m, n))
      ensures Fails(Compose(u1, u2), o, s)
    {
      var n' := Override(n, u1.mod, u2.mod, m);
      OtherNew(u2.pre, u2.mod, o, m, n, n');
      LinkForward(u1.tr, u2.pre, rd, mm, u1.mod, o, s, m, n');
      assert Ex(second, Mk(o, s, n'));
    }
  }

  lemma ApartFrom(m: Renaming, used: set<string>)
    requires Apart(m, used)
    ensures Apart(m, {})
  {
  }

  /** n with the symbols of a that are not in b taken from m. */
  ghost function Override(n: State, a: seq<Id>, b: seq<Id>, m: State): State
  {
    (i: Id) => if i in a && i !in b then m(i) else n(i)
  }

  /** Clauses do not see new_ symbols of unmodified symbols. */
  lemma OtherNew(c: Clauses, mod: seq<Id>, o: State, s: State, n: State, n': State)
    requires NewOnly(c, mod) && Ex(c, Mk(o, s, n))
    requires forall i :: i in mod ==> n'(i) == n(i)
    ensures Ex(c, Mk(o, s, n'))
  {
    var w: Val :| SameProgram(Mk(o, s, n), w) && Holds(c, w);
    forall x | x in Used(c) && Program(x)
      ensures w(x) == Mk(o, s, n')(x)
    {
      assert w(x) == Mk(o, s, n)(x);
    }
    ExBy(c, Mk(o, s, n'), w);
  }

  lemma FramedEx(c: Clauses, ids: seq<Id>, o: State, s: State, n: State)
    ensures Ex(And(c, Frames(ids)), Mk(o, s, n)) <==>
            Ex(c, Mk(o, s, n)) && forall i :: i in ids ==> n(i) == s(i)
  {
    hide Holds, Used;
    forall w: Val | SameProgram(Mk(o, s, n), w)
      ensures Holds(And(c, Frames(ids)), w) <==> Holds(c, w) && forall i :: i in ids ==> n(i) == s(i)
    {
      AndMeaning(c, Frames(ids), w);
      FramesMeaning(ids, w);
      forall i: Id
        ensures w(NewSym(i)) == n(i) && w(BaseSym(i)) == s(i)
      {
        ProgramValue(o, s, n, w, NewSym(i));
        ProgramValue(o, s, n, w, BaseSym(i));
      }
    }
  }

  /** Adding frames for symbols that the clauses do not constrain changes no failing state. */
  lemma FramedFails(c: Clauses, a: seq<Id>, b: seq<Id>, o: State, s: State)
    requires NewOnly(c, a)
    ensures (exists n: State :: Ex(And(c, DiffFrame(a, b)), Mk(o, s, n))) <==>
            (exists n: State :: Ex(c, Mk(o, s, n)))
  {
    var ids := Select(b, a, false);
    forall n: State
      ensures Ex(And(c, DiffFrame(a, b)), Mk(o, s, n)) ==> Ex(c, Mk(o, s, n))
      ensures Ex(c, Mk(o, s, n)) ==> Ex(And(c, DiffFrame(a, b)), Mk(o, s, Override(n, b, a, s)))
    {
      FramedEx(c, ids, o, s, n);
      if Ex(c, Mk(o, s, n)) {
        OtherNew(c, a, o, s, n, Override(n, b, a, s));
        FramedEx(c, ids, o, s, Override(n, b, a, s));
      }
    }
  }

  lemma NullMeaning(o: State, s: State, t: State)
    ensures WellFormed(NullUpdate())
    ensures Rel(NullUpdate(), o, s, t) <==> forall i: Id :: t(i) == s(i)
    ensures !Fails(NullUpdate(), o, s)
  {
    assert SameProgram(Mk(o, s, t), Mk(o, s, t));
  }

  lemma RenamedNewOnly(c: Clauses, m: Renaming, mod: seq<Id>)
    requires forall x :: x in Used(c) && Lookup(m, x).kind.New? ==> Lookup(m, x).id in mod
    requires forall x :: x in Used(c) && Lookup(m, x).kind.Rigid? ==> x.kind.Rigid?
    ensures NewOnly(Rename(c, m), mod) && (NoRigid(c) ==> NoRigid(Rename(c, m)))
  {
    hide Used, Rename;
    RenameUsed(c, m);
  }

  lemma LinkUsed(tr: Clauses, c: Clauses, mod: seq<Id>, mm: Renaming, mod2: seq<Id>)
    requires MidOk(mm, mod, {}) && NewOnly(tr, mod) && NewOnly(c, mod2)
    ensures NewOnly(Link(tr, c, mod, mm), UpdatedJoin(mod, mod2))
    ensures NoRigid(tr) && NoRigid(c) ==> NoRigid(Link(tr, c, mod, mm))
  {
    hide Used, Rename, And, Lookup, MidNew, MidBase;
    var p, q, all := MidNew(mod, mm), MidBase(mod, mm), UpdatedJoin(mod, mod2);
    forall x: Sym
      ensures Lookup(p, x).kind.New? ==> Lookup(p, x) == x
      ensures Lookup(p, x).kind.Rigid? ==> x.kind.Rigid?
      ensures Lookup(q, x).kind.New? ==> Lookup(q, x) == x || Lookup(q, x).id in mod
      ensures Lookup(q, x).kind.Rigid? ==> x.kind.Rigid?
    {
      LookupMidNew(mod, mm, x);
      LookupMidBase(mod, mm, x);
    }
    RenamedNewOnly(tr, p, all);
    RenamedNewOnly(c, q, all);
    AndUsed(Rename(tr, p), Rename(c, q));
  }

  lemma DistinctUsed(c: Clauses, d: Clauses, mod: seq<Id>)
    requires NewOnly(c, mod)
    ensures NewOnly(RenameDistinct(c, d), mod)
    ensures NoRigid(c) ==> NoRigid(RenameDistinct(c, d))
  {
    RenameUsed(c, DistinctMap(c, d));
  }

  lemma ComposeWellFormed(u1: Update, u2: Update)
    requires WellFormed(u1) && WellFormed(u2)
    ensures WellFormed(Compose(u1, u2))
  {
    hide Link, Or, And, Frames, RenameDistinct, Used;
    var mm := MidMap(u1, u2);
    ApartFrom(mm, UsedNames(u1.tr));
    DistinctUsed(u2.tr, u1.tr, u2.mod);
    DistinctUsed(u2.pre, u1.tr, u2.mod);
    LinkUsed(u1.tr, RenameDistinct(u2.tr, u1.tr), u1.mod, mm, u2.mod);
    LinkUsed(u1.tr, RenameDistinct(u2.pre, u1.tr), u1.mod, mm, u2.mod);
    OrUsed(And(u1.pre, DiffFrame(u1.mod, u2.mod)), Link(u1.tr, RenameDistinct(u2.pre, u1.tr), u1.mod, mm));
    FramedUsed(u1.pre, u1.mod, u2.mod);
  }

  lemma FramedUsed(c: Clauses, a: seq<Id>, b: seq<Id>)
    requires NewOnly(c, a)
    ensures NewOnly(And(c, DiffFrame(a, b)), UpdatedJoin(a, b))
    ensures NewOnly(And(c, DiffFrame(a, b)), UpdatedJoin(b, a))
    ensures NoRigid(c) ==> NoRigid(And(c, DiffFrame(a, b)))
  {
    AndUsed(c, DiffFrame(a, b));
    FramesUsed(Select(b, a, false));
  }

  /** Flattening a nested sequence keeps its meaning. */
  lemma ComposeAssociative(u1: Update, u2: Update, u3: Update, o: State, s: State, t: State)
    requires WellFormed(u1) && WellFormed(u2) && WellFormed(u3)
    ensures Rel(Compose(Compose(u1, u2), u3), o, s, t) <==> Rel(Compose(u1, Compose(u2, u3)), o, s, t)
    ensures Fails(Compose(Compose(u1, u2), u3), o, s) <==> Fails(Compose(u1, Compose(u2, u3)), o, s)
  {
    hide Compose, Rel, Fails, WellFormed;
    var u12, u23 := Compose(u1, u2), Compose(u2, u3);
    ComposeWellFormed(u1, u2);
    ComposeWellFormed(u2, u3);
    ComposeRel(u12, u3, o, s, t);
    ComposeRel(u1, u23, o, s, t);
    ComposeFails(u12, u3, o, s);
    ComposeFails(u1, u23, o, s);
    ComposeFails(u1, u2, o, s);
    forall m: State
      ensures Rel(u12, o, s, m) <==> exists n: State :: Rel(u1, o, s, n) && Rel(u2, o, n, m)
      ensures Rel(u23, o, m, t) <==> exists n: State :: Rel(u2, o, m, n) && Rel(u3, o, n, t)
      ensures Fails(u23, o, m) <==> Fails(u2, o, m) || exists n: State :: Rel(u2, o, m, n) && Fails(u3, o, n)
    {
      ComposeRel(u1, u2, o, s, m);
      ComposeRel(u2, u3, o, m, t);
      ComposeFails(u2, u3, o, m);
    }
  }

  lemma RelCongruence(u: Update, o: State, s: State, t: State, s': State, t': State)
    requires Rel(u, o, s, t) && (forall i: Id :: s(i) == s'(i)) && (forall i: Id :: t(i) == t'(i))
    ensures Rel(u, o, s', t')
  {
    ExCongruence(u.tr, o, s, t, s', t');
  }

  lemma ExCongruence(c: Clauses, o: State, s: State, t: State, s': State, t': State)
    requires Ex(c, Mk(o, s, t)) && (forall i: Id :: s(i) == s'(i)) && (forall i: Id :: t(i) == t'(i))
    ensures Ex(c, Mk(o, s', t'))
  {
    var w: Val :| SameProgram(Mk(o, s, t), w) && Holds(c, w);
    assert SameProgram(Mk(o, s', t'), w);
  }

  lemma ComposeUnit(u: Update, o: State, s: State, t: State)
    requires WellFormed(u)
    ensures Rel(Compose(NullUpdate(), u), o, s, t) <==> Rel(u, o, s, t)
    ensures Rel(Compose(u, NullUpdate()), o, s, t) <==> Rel(u, o, s, t)
    ensures Fails(Compose(NullUpdate(), u), o, s) <==> Fails(u, o, s)
    ensures Fails(Compose(u, NullUpdate()), o, s) <==> Fails(u, o, s)
  {
    hide Compose, Rel, WellFormed, NullUpdate, Ex, Mk;
    var skip := NullUpdate();
    NullMeaning(o, s, t);
    forall m: State, n: State
      ensures Rel(skip, o, m, n) <==> forall i: Id :: n(i) == m(i)
    {
      NullMeaning(o, m, n);
    }
    forall m: State
      ensures !Fails(skip, o, m)
    {
      NullMeaning(o, m, t);
    }
    ComposeRel(skip, u, o, s, t);
    ComposeRel(u, skip, o, s, t);
    ComposeFails(skip, u, o, s);
    ComposeFails(u, skip, o, s);
    forall m: State | Rel(skip, o, s, m)
      ensures Rel(u, o, m, t) ==> Rel(u, o, s, t)
      ensures Fails(u, o, m) ==> Fails(u, o, s)
    {
      if Rel(u, o, m, t) { RelCongruence(u, o, m, t, s, t); }
      forall n: State | Ex(u.pre, Mk(o, m, n))
        ensures Ex(u.pre, Mk(o, s, n))
      {
        ExCongruence(u.pre, o, m, n, s, n);
      }
    }
    forall m: State | Rel(skip, o, m, t)
      ensures Rel(u, o, s, m) ==> Rel(u, o, s, t)
    {
      if Rel(u, o, s, m) { RelCongruence(u, o, s, m, s, t); }
    }
    assert Rel(skip, o, s, s) && Rel(skip, o, t, t);
  }

  // ----- join and conditional -----

  function Join(u1: Update, u2: Update): Update
  {
    var d12 := DiffFrame(u1.mod, u2.mod);
    var d21 := DiffFrame(u2.mod, u1.mod);
    Update(UpdatedJoin(u1.mod, u2.mod),
           Or(And(u1.tr, d12), And(u2.tr, d21)),
           Or(And(u1.pre, d12), And(u2.pre, d21)))
  }

  function IteAction(cond: Expr, u1: Update, u2: Update): Update
  {
    var d12 := DiffFrame(u1.mod, u2.mod);
    var d21 := DiffFrame(u2.mod, u1.mod);
    Update(UpdatedJoin(u1.mod, u2.mod),
           IteClauses(cond, And(u1.tr, d12), And(u2.tr, d21)),
           IteClauses(cond, And(u1.pre, d12), And(u2.pre, d21)))
  }

  /** A transition formula with the missing frames added describes the same transitions. */
  lemma FramedRel(u: Update, b: seq<Id>, o: State, s: State, t: State)
    ensures Rel(u, o, s, t) <==>
            (forall i: Id :: i !in u.mod && i !in b ==> t(i) == s(i)) && Ex(And(u.tr, DiffFrame(u.mod, b)), Mk(o, s, t))
  {
    FramedEx(u.tr, Select(b, u.mod, false), o, s, t);
  }

  lemma JoinMeaning(u1: Update, u2: Update, o: State, s: State, t: State)
    requires WellFormed(u1) && WellFormed(u2)
    ensures Rel(Join(u1, u2), o, s, t) <==> Rel(u1, o, s, t) || Rel(u2, o, s, t)
    ensures Fails(Join(u1, u2), o, s) <==> Fails(u1, o, s) || Fails(u2, o, s)
  {
    hide Or, And, DiffFrame, Ex, Used;
    var d12, d21 := DiffFrame(u1.mod, u2.mod), DiffFrame(u2.mod, u1.mod);
    FramedRel(u1, u2.mod, o, s, t);
    FramedRel(u2, u1.mod, o, s, t);
    OrMeaning(And(u1.tr, d12), And(u2.tr, d21), Mk(o, s, t));
    FramedFails(u1.pre, u1.mod, u2.mod, o, s);
    FramedFails(u2.pre, u2.mod, u1.mod, o, s);
    forall n: State
      ensures Ex(Join(u1, u2).pre, Mk(o, s, n)) <==>
              Ex(And(u1.pre, d12), Mk(o, s, n)) || Ex(And(u2.pre, d21), Mk(o, s, n))
    {
      OrMeaning(And(u1.pre, d12), And(u2.pre, d21), Mk(o, s, n));
    }
  }

  lemma JoinWellFormed(u1: Update, u2: Update)
    requires WellFormed(u1) && WellFormed(u2)
    ensures WellFormed(Join(u1, u2))
  {
    hide Or, And, DiffFrame, Used;
    var d12, d21 := DiffFrame(u1.mod, u2.mod), DiffFrame(u2.mod, u1.mod);
    OrUsed(And(u1.tr, d12), And(u2.tr, d21));
    OrUsed(And(u1.pre, d12), And(u2.pre, d21));
    FramedUsed(u1.tr, u1.mod, u2.mod);
    FramedUsed(u2.tr, u2.mod, u1.mod);
    FramedUsed(u1.pre, u1.mod, u2.mod);
    FramedUsed(u2.pre, u2.mod, u1.mod);
  }

  /** A condition of the program: closed, over symbols now and at the entry of the call. */
  ghost predicate StateCond(cond: Expr)
  {
    && ClosedCond(cond)
    && forall x :: x in Syms(cond) ==> x.kind.Base? || x.kind.Old?
  }

  ghost predicate CondHolds(cond: Expr, o: State, s: State)
  {
    Eval(cond, Mk(o, s, s), map[]) != 0
  }

  lemma CondAt(cond: Expr, o: State, s: State, n: State)
    requires StateCond(cond)
    ensures Eval(cond, Mk(o, s, n), map[]) != 0 <==> CondHolds(cond, o, s)
  {
    EvalCoincide(cond, Mk(o, s, n), Mk(o, s, s), map[]);
  }

  lemma IteActionMeaning(cond: Expr, u1: Update, u2: Update, o: State, s: State, t: State)
    requires WellFormed(u1) && WellFormed(u2) && StateCond(cond)
    ensures Rel(IteAction(cond, u1, u2), o, s, t) <==>
            if CondHolds(cond, o, s) then Rel(u1, o, s, t) else Rel(u2, o, s, t)
    ensures Fails(IteAction(cond, u1, u2), o, s) <==>
            if CondHolds(cond, o, s) then Fails(u1, o, s) else Fails(u2, o, s)
  {
    hide IteClauses, And, DiffFrame, Ex, Eval, ClosedCond, CondHolds, Used;
    var d12, d21 := DiffFrame(u1.mod, u2.mod), DiffFrame(u2.mod, u1.mod);
    FramedRel(u1, u2.mod, o, s, t);
    FramedRel(u2, u1.mod, o, s, t);
    CondAt(cond, o, s, t);
    IteMeaning(cond, And(u1.tr, d12), And(u2.tr, d21), Mk(o, s, t));
    FramedFails(u1.pre, u1.mod, u2.mod, o, s);
    FramedFails(u2.pre, u2.mod, u1.mod, o, s);
    forall n: State
      ensures Ex(IteAction(cond, u1, u2).pre, Mk(o, s, n)) <==>
              if CondHolds(cond, o, s) then Ex(And(u1.pre, d12), Mk(o, s, n)) else Ex(And(u2.pre, d21), Mk(o, s, n))
    {
      CondAt(cond, o, s, n);
      IteMeaning(cond, And(u1.pre, d12), And(u2.pre, d21), Mk(o, s, n));
    }
  }

  lemma IteWellFormed(cond: Expr, u1: Update, u2: Update)
    requires WellFormed(u1) && WellFormed(u2) && StateCond(cond)
    ensures WellFormed(IteAction(cond, u1, u2))
  {
    hide IteClauses, And, DiffFrame, ClosedCond, Used;
    var d12, d21 := DiffFrame(u1.mod, u2.mod), DiffFrame(u2.mod, u1.mod);
    IteUsed(cond, And(u1.tr, d12), And(u2.tr, d21));
    IteUsed(cond, And(u1.pre, d12), And(u2.pre, d21));
    FramedUsed(u1.tr, u1.mod, u2.mod);
    FramedUsed(u2.tr, u2.mod, u1.mod);
    FramedUsed(u1.pre, u1.mod, u2.mod);
    FramedUsed(u2.pre, u2.mod, u1.mod);
  }

  // ----- a choice by a branch constant -----

  /** The condition of a two-way choice turned into a conditional: the negated branch constant. */
  function BranchCond(b: Sym): Expr
  {
    Not(App(b, []))
  }

  lemma BranchCondMeaning(b: Sym, v: Val)
    ensures EnvFree(BranchCond(b)) && SymNames(BranchCond(b)) == {Spell(b)}
    ensures Eval(BranchCond(b), v, map[]) != 0 <==> !IsOn(b, v)
  {
    forall w: Val, env: Env
      ensures Eval(BranchCond(b), w, env) == Eval(BranchCond(b), w, map[])
    {
      assert EvalAll([], w, env) == [] && EvalAll([], w, map[]) == [];
    }
    assert EvalAll([], v, map[]) == [];
    assert Syms(App(b, [])) == {b};
  }

  /** With the branch constant existentially quantified, the conditional is the disjunction. */
  lemma BranchedEx(b: Sym, c: Clauses, d: Clauses, v: Val)
    requires b.kind.Skolem? && Spell(b) !in UsedNames(c) && Spell(b) !in UsedNames(d)
    ensures Ex(IteClauses(BranchCond(b), c, d), v) <==> Ex(c, v) || Ex(d, v)
  {
    hide Holds, IsFalse, FreshBool, Guarded, Eval, EnvFree, BranchCond;
    var cond := BranchCond(b);
    if IsFalse(c) && IsFalse(d) {
      FalseEx(c, v);
      FalseEx(d, v);
    } else {
      var a := FreshBool(UsedNames(c) + UsedNames(d) + SymNames(cond));
      BranchCondMeaning(b, v);
      forall w: Val | SameProgram(v, w) && Holds(Guarded(a, cond, c, d), w)
        ensures Ex(c, v) || Ex(d, v)
      {
        GuardedMeaning(a, cond, c, d, w);
      }
      if w: Val :| SameProgram(v, w) && Holds(c, w) {
        BranchChosen(a, b, c, d, true, v, w);
      }
      if w: Val :| SameProgram(v, w) && Holds(d, w) {
        BranchChosen(a, b, c, d, false, v, w);
      }
    }
  }

  lemma BranchChosen(a: Sym, b: Sym, c: Clauses, d: Clauses, first: bool, v: Val, w: Val)
    requires a.kind.Skolem? && b.kind.Skolem? && Spell(a) != Spell(b)
    requires Spell(a) !in UsedNames(c) + UsedNames(d) && Spell(b) !in UsedNames(c) + UsedNames(d)
    requires SameProgram(v, w) && Holds(if first then c else d, w)
    ensures Ex(Guarded(a, BranchCond(b), c, d), v)
  {
    hide Holds, Guarded, Eval, EnvFree, BranchCond;
    var part := if first then c else d;
    var w1 := SetSym(w, b, BoolTable(!first));
    var w2 := SetSym(w1, a, BoolTable(first));
    SetUnused(part, w, b, BoolTable(!first));
    SetUnused(part, w1, a, BoolTable(first));
    assert w2(b) == BoolTable(!first) && w2(a) == BoolTable(first);
    BranchCondMeaning(b, w2);
    GuardedMeaning(a, BranchCond(b), c, d, w2);
    assert SameProgram(v, w2);
  }

  /** The branch constant is used by neither update. */
  predicate NewBranch(b: Sym, u1: Update, u2: Update)
  {
    var d12, d21 := DiffFrame(u1.mod, u2.mod), DiffFrame(u2.mod, u1.mod);
    && b.kind.Skolem?
    && Spell(b) !in UsedNames(And(u1.tr, d12)) + UsedNames(And(u2.tr, d21))
    && Spell(b) !in UsedNames(And(u1.pre, d12)) + UsedNames(And(u2.pre, d21))
  }

  /** A two-way choice determinized by a branch constant is the choice. */
  lemma DeterminizedMeaning(b: Sym, u1: Update, u2: Update, o: State, s: State, t: State)
    requires WellFormed(u1) && WellFormed(u2) && NewBranch(b, u1, u2)
    ensures Rel(IteAction(BranchCond(b), u1, u2), o, s, t) <==> Rel(Join(u1, u2), o, s, t)
    ensures Fails(IteAction(BranchCond(b), u1, u2), o, s) <==> Fails(Join(u1, u2), o, s)
  {
    hide IteClauses, Or, And, DiffFrame, Ex, Used, BranchCond;
    var d12, d21 := DiffFrame(u1.mod, u2.mod), DiffFrame(u2.mod, u1.mod);
    BranchedEx(b, And(u1.tr, d12), And(u2.tr, d21), Mk(o, s, t));
    OrMeaning(And(u1.tr, d12), And(u2.tr, d21), Mk(o, s, t));
    forall n: State
      ensures Ex(IteAction(BranchCond(b), u1, u2).pre, Mk(o, s, n)) <==> Ex(Join(u1, u2).pre, Mk(o, s, n))
    {
      BranchedEx(b, And(u1.pre, d12), And(u2.pre, d21), Mk(o, s, n));
      OrMeaning(And(u1.pre, d12), And(u2.pre, d21), Mk(o, s, n));
    }
  }
}
