/**
 Forward and reverse images of sets of states through an update, both given by clauses.
 */
module Images {
  import opened Names
  import opened Logic
  import opened ClauseOps
  import opened Updates
  import opened Hiding

  /** Clauses about one state: existential symbols aside, they mention plain symbols only. */
  predicate StateClauses(c: Clauses)
  {
    forall x :: x in Used(c) ==> x.kind.Base? || x.kind.Skolem?
  }

  /** The state satisfies the clauses. */
  ghost predicate InSet(c: Clauses, s: State)
  {
    Ex(c, Mk(s, s, s))
  }

  /** An update with its old_ symbols bound. */
  predicate Bound(u: Update)
  {
    WellFormed(u) && NoOld(u.tr) && NoOld(u.pre)
  }

  /** The transition formula mentions new_ symbols of modified symbols only, and no old_ symbols. */
  predicate Shaped(u: Update)
  {
    NewOnly(u.tr, u.mod) && NoOld(u.tr)
  }

  ghost predicate Step(u: Update, s: State, t: State)
  {
    Rel(u, s, s, t)
  }

  /** Clauses that do not mention some kind of program symbol do not depend on it. */
  lemma OnlyBase(c: Clauses, s: State, v: Val)
    requires forall x :: x in Used(c) && Program(x) ==> x.kind.Base?
    requires forall i: Id :: v(BaseSym(i)) == s(i)
    ensures Ex(c, v) <==> InSet(c, s)
  {
    hide Holds, Used;
    forall w: Val | Holds(c, w) && (SameProgram(v, w) || SameProgram(Mk(s, s, s), w))
      ensures Ex(c, v) && InSet(c, s)
    {
      forall x | x in Used(c) && Program(x)
        ensures w(x) == v(x) == Mk(s, s, s)(x)
      {
        assert x == BaseSym(x.id);
      }
      ExBy(c, v, w);
      ExBy(c, Mk(s, s, s), w);
    }
  }

  function QuantMap(prefix: string, syms: seq<Sym>, c: Clauses): (m: Renaming)
    ensures Apart(m, UsedNames(c)) && m.Keys == set x | x in syms
  {
    RenameAll(prefix, syms, UsedNames(c)).m
  }

  /** new_x becomes x again. */
  function Unprime(mod: seq<Id>): Renaming
  {
    map i | i in mod :: NewSym(i) := BaseSym(i)
  }

  function Prime(mod: seq<Id>): Renaming
  {
    map i | i in mod :: BaseSym(i) := NewSym(i)
  }

  lemma LookupUnprime(mod: seq<Id>, x: Sym)
    ensures Lookup(Unprime(mod), x) == if x.kind.New? && x.id in mod then BaseSym(x.id) else x
  {
    if x.kind.New? { assert x == NewSym(x.id); }
  }

  lemma LookupPrime(mod: seq<Id>, x: Sym)
    ensures Lookup(Prime(mod), x) == if x.kind.Base? && x.id in mod then NewSym(x.id) else x
  {
    if x.kind.Base? { assert x == BaseSym(x.id); }
  }

  /** The fresh names for the values before the step. */
  function PastMap(p: Clauses, u: Update): (m: Renaming)
    ensures Apart(m, UsedNames(Conjoin(p, u.tr)))
    ensures forall x :: x in m <==> x.kind.Base? && x.id in u.mod
  {
    assert forall x :: x in BaseSyms(u.mod) <==> x.kind.Base? && x.id in u.mod by {
      forall x
        ensures x in BaseSyms(u.mod) <==> x.kind.Base? && x.id in u.mod
      {
        BaseSymsHas(u.mod, x);
      }
    }
    QuantMap("__", BaseSyms(u.mod), Conjoin(p, u.tr))
  }

  function ForwardImage(p: Clauses, u: Update): Clauses
  {
    Rename(Rename(Conjoin(p, u.tr), PastMap(p, u)), Unprime(u.mod))
  }

  function FutureMap(u: Update, post: Clauses): (m: Renaming)
    ensures Apart(m, UsedNames(Conjoin(u.tr, post)))
    ensures forall x :: x in m <==> x.kind.New? && x.id in u.mod
  {
    assert forall x :: x in NewSyms(u.mod) <==> x.kind.New? && x.id in u.mod by {
      forall x
        ensures x in NewSyms(u.mod) <==> x.kind.New? && x.id in u.mod
      {
        NewSymsHas(u.mod, x);
      }
    }
    QuantMap("__", NewSyms(u.mod), Conjoin(u.tr, post))
  }

  lemma NewSymsHas(ids: seq<Id>, x: Sym)
    ensures x in NewSyms(ids) <==> x.kind.New? && x.id in ids
  {
    if x.kind.New? && x.id in ids {
      var k :| 0 <= k < |ids| && ids[k] == x.id;
      assert NewSyms(ids)[k] == x;
    }
  }

  function ReverseImage(q: Clauses, u: Update): Clauses
  {
    var post := Rename(q, Prime(u.mod));
    Rename(Conjoin(u.tr, post), FutureMap(u, post))
  }

  /** The state clauses and the transition formula together describe a step from the set. */
  lemma StepFrom(p: Clauses, u: Update, s: State, t: State)
    requires StateClauses(p) && Shaped(u) && forall i :: i !in u.mod ==> t(i) == s(i)
    ensures Ex(Conjoin(p, u.tr), Mk(s, s, t)) <==> InSet(p, s) && Step(u, s, t)
  {
    hide Ex, Used;
    ConjoinMeaning(p, u.tr, Mk(s, s, t));
    OnlyBase(p, s, Mk(s, s, t));
  }

  ghost function AfterMap(mod: seq<Id>, t: State, w: Val): Val
  {
    (x: Sym) => if x.kind.New? && x.id in mod then t(x.id) else w(x)
  }

  lemma UnprimeEx(c: Clauses, mod: seq<Id>, t: State)
    requires NewOnly(c, mod) && NoOld(c)
    ensures InSet(Rename(c, Unprime(mod)), t) <==>
            exists v: Val ::
              (forall i: Id :: v(BaseSym(i)) == t(i)) && (forall i :: i in mod ==> v(NewSym(i)) == t(i)) && Ex(c, v)
  {
    hide Holds, Used, Rename, Pull;
    var m := Unprime(mod);
    forall w: Val | SameProgram(Mk(t, t, t), w) && Holds(Rename(c, m), w)
      ensures (forall i: Id :: Mk(t, t, t)(BaseSym(i)) == t(i)) &&
              (forall i :: i in mod ==> Mk(t, t, t)(NewSym(i)) == t(i))
      ensures Ex(c, Mk(t, t, t))
    {
      RenameMeaning(c, m, w);
      forall x | x in Used(c) && Program(x)
        ensures Pull(w, m)(x) == Mk(t, t, t)(x)
      {
        LookupUnprime(mod, x);
        assert w(Lookup(m, x)) == Mk(t, t, t)(Lookup(m, x));
        PullIs(w, m, x);
      }
      ExBy(c, Mk(t, t, t), Pull(w, m));
    }
    forall v: Val, w: Val |
      (forall i: Id :: v(BaseSym(i)) == t(i)) && (forall i :: i in mod ==> v(NewSym(i)) == t(i)) &&
      SameProgram(v, w) && Holds(c, w)
      ensures InSet(Rename(c, m), t)
    {
      var u: Val := (x: Sym) => if Program(x) then t(x.id) else w(x);
      forall x | x in Used(c)
        ensures Pull(u, m)(x) == w(x)
      {
        LookupUnprime(mod, x);
        PullIs(u, m, x);
        if x.kind.Base? { assert x == BaseSym(x.id); }
        if x.kind.New? { assert x == NewSym(x.id); }
      }
      Coincide(c, w, Pull(u, m));
      RenameMeaning(c, m, u);
      assert SameProgram(Mk(t, t, t), u);
    }
  }

  lemma PullIs(v: Val, m: Renaming, x: Sym)
    ensures Pull(v, m)(x) == v(Lookup(m, x))
  {
  }

  /** The forward image is the set of states one step away. */
  lemma ForwardImageMeaning(p: Clauses, u: Update, t: State)
    requires StateClauses(p) && Shaped(u)
    ensures InSet(ForwardImage(p, u), t) <==> exists s: State :: InSet(p, s) && Step(u, s, t)
  {
    hide Ex, Used, Rename, Conjoin, InSet, Step;
    var c := Conjoin(p, u.tr);
    var m := PastMap(p, u);
    var past := Rename(c, m);
    ConjoinUsed(p, u);
    PastUsed(p, u);
    UnprimeEx(past, u.mod, t);
    forall v: Val
      ensures Ex(past, v) <==> exists w: Val :: SameBut(m, w, v) && Ex(c, w)
    {
      ProjectMeaning(c, m, v);
    }
    forall v: Val, w: Val |
      (forall i: Id :: v(BaseSym(i)) == t(i)) && (forall i :: i in u.mod ==> v(NewSym(i)) == t(i)) &&
      SameBut(m, w, v) && Ex(c, w)
      ensures InSet(p, Before(w)) && Step(u, Before(w), t)
    {
      ReadsStep(c, u.mod, w, t);
      StepFrom(p, u, Before(w), t);
    }
    forall s: State | InSet(p, s) && Step(u, s, t)
      ensures InSet(ForwardImage(p, u), t)
    {
      StepFrame(u, s, t);
      StepFrom(p, u, s, t);
      var v := Mk(s, t, t);
      assert forall i: Id :: v(BaseSym(i)) == t(i) && v(NewSym(i)) == t(i);
      assert SameBut(m, Mk(s, s, t), v);
      assert Ex(past, v);
    }
  }

  lemma StepFrame(u: Update, s: State, t: State)
    requires Step(u, s, t)
    ensures forall i :: i !in u.mod ==> t(i) == s(i)
  {
  }

  lemma ReadsStep(c: Clauses, mod: seq<Id>, w: Val, t: State)
    requires NewOnly(c, mod) && NoOld(c) && Ex(c, w)
    requires forall i :: i in mod ==> w(NewSym(i)) == t(i)
    requires forall i: Id :: i !in mod ==> w(BaseSym(i)) == t(i)
    ensures Ex(c, Mk(Before(w), Before(w), t))
    ensures forall i: Id :: i !in mod ==> t(i) == Before(w)(i)
  {
    hide Holds, Used;
    var w': Val :| SameProgram(w, w') && Holds(c, w');
    forall x | x in Used(c) && Program(x)
      ensures w'(x) == Mk(Before(w), Before(w), t)(x)
    {
      if x.kind.Base? { assert x == BaseSym(x.id); } else { assert x == NewSym(x.id); }
    }
    ExBy(c, Mk(Before(w), Before(w), t), w');
  }

  lemma ConjoinUsed(p: Clauses, u: Update)
    requires StateClauses(p) && Shaped(u)
    ensures NewOnly(Conjoin(p, u.tr), u.mod) && NoOld(Conjoin(p, u.tr))
    ensures NoRigid(u.tr) ==> NoRigid(Conjoin(p, u.tr))
  {
    hide Used, Rename;
    var m := DistinctMap(u.tr, p);
    AndUsed(p, Rename(u.tr, m));
    RenameUsed(u.tr, m);
  }

  lemma PastUsed(p: Clauses, u: Update)
    requires StateClauses(p) && Shaped(u)
    ensures var c := Rename(Conjoin(p, u.tr), PastMap(p, u)); NewOnly(c, u.mod) && NoOld(c)
    ensures NoRigid(u.tr) ==> StateClauses(ForwardImage(p, u))
  {
    hide Used, Rename, Conjoin;
    var c := Conjoin(p, u.tr);
    var m := PastMap(p, u);
    ConjoinUsed(p, u);
    RenameUsed(c, m);
    var d := Rename(c, m);
    RenameUsed(d, Unprime(u.mod));
    forall x | x in Used(d) && NoRigid(u.tr)
      ensures Lookup(Unprime(u.mod), x).kind.Base? || Lookup(Unprime(u.mod), x).kind.Skolem?
    {
      LookupUnprime(u.mod, x);
    }
  }

  /** The reverse image is the set of states from which one step leads into the set. */
  lemma ReverseImageMeaning(q: Clauses, u: Update, s: State)
    requires StateClauses(q) && Bound(u)
    ensures InSet(ReverseImage(q, u), s) <==> exists t: State :: Step(u, s, t) && InSet(q, t)
  {
    hide Ex, Used, Rename, InSet, Step, Conjoin;
    var post := Rename(q, Prime(u.mod));
    var m := FutureMap(u, post);
    var c := Conjoin(u.tr, post);
    assert ReverseImage(q, u) == Rename(c, m);
    InSetIs(Rename(c, m), s);
    ProjectMeaning(c, m, Mk(s, s, s));
    forall w: Val | SameBut(m, w, Mk(s, s, s)) && Ex(c, w)
      ensures exists t: State :: Step(u, s, t) && InSet(q, t)
    {
      FromReverse(q, u, s, w);
    }
    forall t: State | Step(u, s, t) && InSet(q, t)
      ensures exists w: Val :: SameBut(m, w, Mk(s, s, s)) && Ex(c, w)
    {
      ToReverse(q, u, s, t);
    }
  }

  lemma InSetIs(c: Clauses, s: State)
    ensures InSet(c, s) <==> Ex(c, Mk(s, s, s))
  {
  }

  lemma PrimedEx(q: Clauses, mod: seq<Id>, v: Val, t: State)
    requires StateClauses(q)
    requires forall i: Id :: t(i) == if i in mod then v(NewSym(i)) else v(BaseSym(i))
    ensures Ex(Rename(q, Prime(mod)), v) <==> InSet(q, t)
  {
    hide Holds, Used, Rename, Pull;
    var m := Prime(mod);
    forall w: Val | SameProgram(v, w) && Holds(Rename(q, m), w)
      ensures InSet(q, t)
    {
      RenameMeaning(q, m, w);
      forall x | x in Used(q) && Program(x)
        ensures Pull(w, m)(x) == Mk(t, t, t)(x)
      {
        LookupPrime(mod, x);
        PullIs(w, m, x);
        assert x == BaseSym(x.id);
      }
      ExBy(q, Mk(t, t, t), Pull(w, m));
    }
    forall w: Val | SameProgram(Mk(t, t, t), w) && Holds(q, w)
      ensures Ex(Rename(q, m), v)
    {
      var u: Val := (x: Sym) => if Program(x) then v(x) else w(x);
      forall x | x in Used(q)
        ensures Pull(u, m)(x) == w(x)
      {
        LookupPrime(mod, x);
        PullIs(u, m, x);
        if x.kind.Base? { assert x == BaseSym(x.id) && w(x) == Mk(t, t, t)(x); }
      }
      Coincide(q, w, Pull(u, m));
      RenameMeaning(q, m, u);
      assert SameProgram(v, u);
    }
  }

  lemma FromReverse(q: Clauses, u: Update, s: State, w: Val)
    requires StateClauses(q) && Bound(u)
    requires SameBut(FutureMap(u, Rename(q, Prime(u.mod))), w, Mk(s, s, s))
    requires Ex(Conjoin(u.tr, Rename(q, Prime(u.mod))), w)
    ensures Step(u, s, After(u.mod, w)) && InSet(q, After(u.mod, w))
  {
    hide Used, Rename, Holds, Conjoin, FutureMap;
    var t := After(u.mod, w);
    ConjoinMeaning(u.tr, Rename(q, Prime(u.mod)), w);
    PrimedEx(q, u.mod, w, t);
    var w': Val :| SameProgram(w, w') && Holds(u.tr, w');
    forall x: Sym | !x.kind.New? && Program(x)
      ensures w(x) == Mk(s, s, s)(x)
    {
    }
    forall x | x in Used(u.tr) && Program(x)
      ensures w'(x) == Mk(s, s, t)(x)
    {
      if x.kind.New? { assert x == NewSym(x.id); }
    }
    ExBy(u.tr, Mk(s, s, t), w');
    forall i: Id | i !in u.mod
      ensures t(i) == s(i)
    {
      assert w(BaseSym(i)) == Mk(s, s, s)(BaseSym(i));
    }
  }

  lemma ToReverse(q: Clauses, u: Update, s: State, t: State)
    requires StateClauses(q) && Bound(u) && Step(u, s, t) && InSet(q, t)
    ensures exists w: Val :: SameBut(FutureMap(u, Rename(q, Prime(u.mod))), w, Mk(s, s, s)) &&
                             Ex(Conjoin(u.tr, Rename(q, Prime(u.mod))), w)
  {
    hide Used, Rename, Conjoin;
    var w := AfterMap(u.mod, t, Mk(s, s, s));
    forall i: Id
      ensures t(i) == if i in u.mod then w(NewSym(i)) else w(BaseSym(i))
    {
    }
    PrimedEx(q, u.mod, w, t);
    var w': Val :| SameProgram(Mk(s, s, t), w') && Holds(u.tr, w');
    forall x | x in Used(u.tr) && Program(x)
      ensures w'(x) == w(x)
    {
      assert w'(x) == Mk(s, s, t)(x);
    }
    ExBy(u.tr, w, w');
    ConjoinMeaning(u.tr, Rename(q, Prime(u.mod)), w);
    assert SameBut(FutureMap(u, Rename(q, Prime(u.mod))), w, Mk(s, s, s));
  }

  /** Symbols of the present or of the state after a step. */
  predicate StepSym(x: Sym, mod: seq<Id>)
  {
    x.kind.Base? || x.kind.Skolem? || (x.kind.New? && x.id in mod)
  }

  lemma PrimedSyms(q: Clauses, mod: seq<Id>)
    requires StateClauses(q)
    ensures forall x :: x in Used(Rename(q, Prime(mod))) ==> StepSym(x, mod)
  {
    hide Used, Rename;
    forall x | x in Used(q)
      ensures StepSym(Lookup(Prime(mod), x), mod)
    {
      LookupPrime(mod, x);
    }
    RenameUsed(q, Prime(mod));
  }

  lemma ConjoinedSyms(c: Clauses, d: Clauses, mod: seq<Id>)
    requires forall x :: x in Used(c) ==> StepSym(x, mod)
    requires forall x :: x in Used(d) ==> StepSym(x, mod)
    ensures forall x :: x in Used(Conjoin(c, d)) ==> StepSym(x, mod)
  {
    hide Used, Rename;
    var m := DistinctMap(d, c);
    forall x | x in Used(d)
      ensures StepSym(Lookup(m, x), mod)
    {
      if x in m { LookupIn(m, x); } else { LookupOut(m, x); }
    }
    RenameUsed(d, m);
    AndUsed(c, Rename(d, m));
  }

  lemma ReverseUsed(q: Clauses, u: Update)
    requires StateClauses(q) && Bound(u)
    ensures StateClauses(ReverseImage(q, u))
  {
    hide Used, Rename, Conjoin;
    var post := Rename(q, Prime(u.mod));
    PrimedSyms(q, u.mod);
    ConjoinedSyms(u.tr, post, u.mod);
    var c, m := Conjoin(u.tr, post), FutureMap(u, post);
    forall x | x in Used(c)
      ensures Lookup(m, x).kind.Base? || Lookup(m, x).kind.Skolem?
    {
      if x in m { LookupIn(m, x); InverseIs(m, UsedNames(c), x); } else { LookupOut(m, x); }
    }
    RenameUsed(c, m);
  }

  /** The images are adjoint: a set meets the reverse image of another exactly when its forward image
      meets that other set. */
  lemma ImagesAdjoint(p: Clauses, q: Clauses, u: Update)
    requires StateClauses(p) && StateClauses(q) && Bound(u)
    ensures (exists s: State :: InSet(p, s) && InSet(ReverseImage(q, u), s)) <==>
            (exists t: State :: InSet(ForwardImage(p, u), t) && InSet(q, t))
  {
    assert Shaped(u);
    hide InSet, Step, StateClauses, Bound, Shaped;
    forall s: State
      ensures InSet(ReverseImage(q, u), s) <==> exists t: State :: Step(u, s, t) && InSet(q, t)
    {
      ReverseImageMeaning(q, u, s);
    }
    forall t: State
      ensures InSet(ForwardImage(p, u), t) <==> exists s: State :: InSet(p, s) && Step(u, s, t)
    {
      ForwardImageMeaning(p, u, t);
    }
  }

  lemma ComposeBound(u1: Update, u2: Update)
    requires Bound(u1) && Bound(u2)
    ensures Bound(Compose(u1, u2))
  {
    hide Used, Rename, And, Or, Frames, Link, WellFormed;
    ComposeWellFormed(u1, u2);
    var mm := MidMap(u1, u2);
    LinkNoOld(u1.tr, u2.tr, DistinctMap(u2.tr, u1.tr), u1.mod, mm);
    LinkNoOld(u1.tr, u2.pre, DistinctMap(u2.pre, u1.tr), u1.mod, mm);
    var first := And(u1.pre, DiffFrame(u1.mod, u2.mod));
    FirstNoOld(u1, u2);
    OrNoOld(first, Link(u1.tr, RenameDistinct(u2.pre, u1.tr), u1.mod, mm));
  }

  lemma FirstNoOld(u1: Update, u2: Update)
    requires NoOld(u1.pre)
    ensures NoOld(And(u1.pre, DiffFrame(u1.mod, u2.mod)))
  {
    hide Used, And, Frames;
    AndUsed(u1.pre, DiffFrame(u1.mod, u2.mod));
    FramesUsed(Select(u2.mod, u1.mod, false));
  }

  lemma OrNoOld(c: Clauses, d: Clauses)
    requires NoOld(c) && NoOld(d)
    ensures NoOld(Or(c, d))
  {
    hide Used, Or;
    OrUsed(c, d);
  }

  lemma LinkNoOld(tr: Clauses, c: Clauses, rd: Renaming, mod: seq<Id>, mm: Renaming)
    requires NoOld(tr) && NoOld(c)
    requires forall x :: x in rd ==> rd[x].kind.Skolem?
    requires forall x :: x in mm ==> mm[x].kind.Skolem?
    ensures NoOld(Link(tr, Rename(c, rd), mod, mm))
  {
    hide Used, Rename, And;
    AndUsed(Rename(tr, MidNew(mod, mm)), Rename(Rename(c, rd), MidBase(mod, mm)));
    RenameUsed(tr, MidNew(mod, mm));
    RenameUsed(c, rd);
    RenameUsed(Rename(c, rd), MidBase(mod, mm));
  }

  /** Images turn composition of updates into composition of images. */
  lemma ImagesCompose(p: Clauses, q: Clauses, u1: Update, u2: Update, s: State)
    requires StateClauses(p) && StateClauses(q) && Bound(u1) && Bound(u2)
    ensures InSet(ForwardImage(p, Compose(u1, u2)), s) <==> InSet(ForwardImage(ForwardImage(p, u1), u2), s)
    ensures InSet(ReverseImage(q, Compose(u1, u2)), s) <==> InSet(ReverseImage(ReverseImage(q, u2), u1), s)
  {
    var u := Compose(u1, u2);
    ComposeBound(u1, u2);
    assert Shaped(u1) && Shaped(u2) && Shaped(u);
    hide InSet, Step, StateClauses, Bound, Shaped, Compose, ForwardImage, ReverseImage;
    ForwardUsed(p, u1);
    ReverseUsed(q, u2);
    ForwardImageMeaning(p, u, s);
    ForwardImageMeaning(ForwardImage(p, u1), u2, s);
    ReverseImageMeaning(q, u, s);
    ReverseImageMeaning(ReverseImage(q, u2), u1, s);
    forall m: State
      ensures InSet(ForwardImage(p, u1), m) <==> exists r: State :: InSet(p, r) && Step(u1, r, m)
      ensures InSet(ReverseImage(q, u2), m) <==> exists t: State :: Step(u2, m, t) && InSet(q, t)
    {
      ForwardImageMeaning(p, u1, m);
      ReverseImageMeaning(q, u2, m);
    }
    forall r: State, t: State
      ensures Step(u, r, t) <==> exists m: State :: Step(u1, r, m) && Step(u2, m, t)
    {
      StepCompose(u1, u2, r, t);
    }
  }

  lemma ForwardUsed(p: Clauses, u: Update)
    requires StateClauses(p) && Bound(u)
    ensures StateClauses(ForwardImage(p, u))
  {
    hide Used, Rename, Conjoin;
    PastUsed(p, u);
  }

  lemma OldFree(u: Update, o: State, o': State, s: State, t: State)
    requires Bound(u) && Rel(u, o, s, t)
    ensures Rel(u, o', s, t)
  {
    hide Used, Holds;
    var w: Val :| SameProgram(Mk(o, s, t), w) && Holds(u.tr, w);
    forall x | x in Used(u.tr) && Program(x)
      ensures w(x) == Mk(o', s, t)(x)
    {
      assert w(x) == Mk(o, s, t)(x);
    }
    ExBy(u.tr, Mk(o', s, t), w);
  }

  lemma StepCompose(u1: Update, u2: Update, s: State, t: State)
    requires Bound(u1) && Bound(u2)
    ensures Step(Compose(u1, u2), s, t) <==> exists m: State :: Step(u1, s, m) && Step(u2, m, t)
  {
    hide Rel, Compose, NoOld;
    ComposeRel(u1, u2, s, s, t);
    forall m: State | Rel(u1, s, s, m)
      ensures Rel(u2, s, m, t) <==> Step(u2, m, t)
      ensures Step(u1, s, m)
    {
      if Rel(u2, s, m, t) { OldFree(u2, s, m, m, t); }
      if Rel(u2, m, m, t) { OldFree(u2, m, s, m, t); }
    }
    forall m: State | Step(u1, s, m)
      ensures Rel(u1, s, s, m)
    {
    }
  }
}
