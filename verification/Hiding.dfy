/**
 Scopes: hiding symbols of an update, binding old_ symbols to the present, and adding symbols to the
 list of modified ones.
 */
module Hiding {
  import opened Names
  import opened Logic
  import opened ClauseOps
  import opened Updates

  function NewSyms(ids: seq<Id>): (r: seq<Sym>)
    ensures |r| == |ids| && forall k :: 0 <= k < |ids| ==> r[k] == NewSym(ids[k])
  {
    seq(|ids|, k requires 0 <= k < |ids| => NewSym(ids[k]))
  }

  /** The hidden symbols, and the new_ versions of those that are modified. */
  function HiddenSyms(xs: seq<Id>, mod: seq<Id>): seq<Sym>
  {
    BaseSyms(AddNew([], xs)) + NewSyms(AddNew([], Select(mod, xs, true)))
  }

  function HideMap(xs: seq<Id>, mod: seq<Id>, c: Clauses): (m: Renaming)
    ensures Apart(m, UsedNames(c))
    ensures forall x :: x in m <==> x.id in xs && (x.kind.Base? || (x.kind.New? && x.id in mod))
  {
    forall x: Sym
      ensures x in HiddenSyms(xs, mod) <==> x.id in xs && (x.kind.Base? || (x.kind.New? && x.id in mod))
    {
      HiddenSymsHas(xs, mod, x);
    }
    RenameAll("__", HiddenSyms(xs, mod), UsedNames(c)).m
  }

  lemma HiddenSymsHas(xs: seq<Id>, mod: seq<Id>, x: Sym)
    ensures x in HiddenSyms(xs, mod) <==> x.id in xs && (x.kind.Base? || (x.kind.New? && x.id in mod))
  {
    var bs, ns := AddNew([], xs), AddNew([], Select(mod, xs, true));
    BaseSymsHas(bs, x);
    if x.kind.New? && x.id in ns {
      var k :| 0 <= k < |ns| && ns[k] == x.id;
      assert NewSyms(ns)[k] == x;
    }
  }

  /** Existentially quantifies symbols out of an update. */
  function Hide(xs: seq<Id>, u: Update): Update
  {
    Update(Select(u.mod, xs, false),
           Rename(u.tr, HideMap(xs, u.mod, u.tr)),
           Rename(u.pre, HideMap(xs, u.mod, u.pre)))
  }

  ghost predicate Same(s: State, t: State)
  {
    forall i: Id :: t(i) == s(i)
  }

  ghost predicate SameOff(xs: seq<Id>, a: State, b: State)
  {
    forall i: Id :: i !in xs ==> a(i) == b(i)
  }

  ghost predicate SameOn(xs: seq<Id>, a: State, b: State)
  {
    forall i: Id :: i in xs ==> a(i) == b(i)
  }

  /** Running with fresh values of the hidden symbols and restoring them afterwards. */
  ghost predicate HiddenRel(xs: seq<Id>, u: Update, o: State, s: State, t: State)
  {
    exists s1: State, t1: State ::
      SameOff(xs, s1, s) && SameOff(xs, t1, t) && SameOn(xs, s, t) && Rel(u, o, s1, t1)
  }

  ghost predicate HiddenFails(xs: seq<Id>, u: Update, o: State, s: State)
  {
    exists s1: State :: SameOff(xs, s1, s) && Fails(u, o, s1)
  }

  /** The states before and after that a valuation of the hidden clauses describes. */
  ghost function Before(w: Val): State
  {
    (i: Id) => w(BaseSym(i))
  }

  ghost function After(mod: seq<Id>, w: Val): State
  {
    (i: Id) => w(if i in mod then NewSym(i) else BaseSym(i))
  }

  /** A projected valuation describes a transition between states that differ on hidden symbols only. */
  lemma Unhide(xs: seq<Id>, mod: seq<Id>, c: Clauses, m: Renaming, o: State, s: State, t: State, w: Val)
    requires NewOnly(c, mod)
    requires forall x :: x in m <==> x.id in xs && (x.kind.Base? || (x.kind.New? && x.id in mod))
    requires SameBut(m, w, Mk(o, s, t)) && Ex(c, w)
    ensures Ex(c, Mk(o, Before(w), After(mod, w))) && SameOff(xs, Before(w), s)
    ensures forall i :: i !in mod ==> After(mod, w)(i) == Before(w)(i)
    ensures forall i :: i in mod && i !in xs ==> After(mod, w)(i) == t(i)
  {
    hide Used, Holds;
    var w': Val :| SameProgram(w, w') && Holds(c, w');
    forall i: Id
      ensures i !in xs ==> w(BaseSym(i)) == s(i) && w(NewSym(i)) == t(i)
      ensures w(OldSym(i)) == o(i)
    {
      assert Mk(o, s, t)(BaseSym(i)) == s(i) && Mk(o, s, t)(NewSym(i)) == t(i) && Mk(o, s, t)(OldSym(i)) == o(i);
    }
    forall x | x in Used(c) && Program(x)
      ensures w'(x) == Mk(o, Before(w), After(mod, w))(x)
    {
      assert x == BaseSym(x.id) || x == NewSym(x.id) || x == OldSym(x.id);
    }
    ExBy(c, Mk(o, Before(w), After(mod, w)), w');
  }

  /** The valuation that takes the hidden symbols from one pair of states and the rest from another. */
  ghost function Hidden(m: Renaming, v1: Val, v: Val): Val
  {
    (x: Sym) => if x in m then v1(x) else v(x)
  }

  lemma Rehide(xs: seq<Id>, mod: seq<Id>, c: Clauses, m: Renaming,
               o: State, s: State, t: State, s1: State, t1: State)
    requires NewOnly(c, mod)
    requires forall x :: x in m <==> x.id in xs && (x.kind.Base? || (x.kind.New? && x.id in mod))
    requires Ex(c, Mk(o, s1, t1)) && SameOff(xs, s1, s)
    requires forall i :: i in mod && i !in xs ==> t1(i) == t(i)
    ensures var w := Hidden(m, Mk(o, s1, t1), Mk(o, s, t)); SameBut(m, w, Mk(o, s, t)) && Ex(c, w)
  {
    hide Used, Holds;
    var w := Hidden(m, Mk(o, s1, t1), Mk(o, s, t));
    var w': Val :| SameProgram(Mk(o, s1, t1), w') && Holds(c, w');
    forall x | x in Used(c) && Program(x)
      ensures w'(x) == w(x)
    {
      assert w'(x) == Mk(o, s1, t1)(x);
    }
    ExBy(c, w, w');
  }

  /** Hiding is projection with restored scope. */
  lemma HideRel(xs: seq<Id>, u: Update, o: State, s: State, t: State)
    requires WellFormed(u)
    ensures Rel(Hide(xs, u), o, s, t) <==> HiddenRel(xs, u, o, s, t)
  {
    hide Used, Ex, Mk, SameBut, Before, After, Hidden;
    var m := HideMap(xs, u.mod, u.tr);
    ProjectMeaning(u.tr, m, Mk(o, s, t));
    if Rel(Hide(xs, u), o, s, t) {
      var w: Val :| SameBut(m, w, Mk(o, s, t)) && Ex(u.tr, w);
      Unhide(xs, u.mod, u.tr, m, o, s, t, w);
      assert SameOff(xs, After(u.mod, w), t);
      assert Rel(u, o, Before(w), After(u.mod, w));
    }
    forall s1: State, t1: State |
      SameOff(xs, s1, s) && SameOff(xs, t1, t) && SameOn(xs, s, t) && Rel(u, o, s1, t1)
      ensures Rel(Hide(xs, u), o, s, t)
    {
      Rehide(xs, u.mod, u.tr, m, o, s, t, s1, t1);
      forall i: Id | i !in Hide(xs, u).mod
        ensures t(i) == s(i)
      {
      }
    }
  }

  lemma HideFails(xs: seq<Id>, u: Update, o: State, s: State)
    requires WellFormed(u)
    ensures Fails(Hide(xs, u), o, s) <==> HiddenFails(xs, u, o, s)
  {
    hide Used, Ex, Mk, SameBut, Before, After, Hidden;
    var m := HideMap(xs, u.mod, u.pre);
    forall n: State
      ensures Ex(Hide(xs, u).pre, Mk(o, s, n)) <==> exists w: Val :: SameBut(m, w, Mk(o, s, n)) && Ex(u.pre, w)
    {
      ProjectMeaning(u.pre, m, Mk(o, s, n));
    }
    forall n: State, w: Val | SameBut(m, w, Mk(o, s, n)) && Ex(u.pre, w)
      ensures HiddenFails(xs, u, o, s)
    {
      Unhide(xs, u.mod, u.pre, m, o, s, n, w);
      assert Fails(u, o, Before(w));
    }
    forall s1: State, n: State | SameOff(xs, s1, s) && Ex(u.pre, Mk(o, s1, n))
      ensures Fails(Hide(xs, u), o, s)
    {
      Rehide(xs, u.mod, u.pre, m, o, s, n, s1, n);
    }
  }

  lemma HideWellFormed(xs: seq<Id>, u: Update)
    requires WellFormed(u)
    ensures WellFormed(Hide(xs, u))
  {
    hide Used, Rename;
    HiddenNewOnly(xs, u.mod, u.tr);
    HiddenNewOnly(xs, u.mod, u.pre);
  }

  lemma HiddenNewOnly(xs: seq<Id>, mod: seq<Id>, c: Clauses)
    requires NewOnly(c, mod)
    ensures NewOnly(Rename(c, HideMap(xs, mod, c)), Select(mod, xs, false))
    ensures NoRigid(c) ==> NoRigid(Rename(c, HideMap(xs, mod, c)))
  {
    hide Used, Rename;
    RenamedNewOnly(c, HideMap(xs, mod, c), Select(mod, xs, false));
  }

  /** Hiding one list after another is hiding both at once. */
  lemma HideTwice(xs: seq<Id>, ys: seq<Id>, u: Update, o: State, s: State, t: State)
    requires WellFormed(u)
    ensures Rel(Hide(ys, Hide(xs, u)), o, s, t) <==> Rel(Hide(xs + ys, u), o, s, t)
    ensures Fails(Hide(ys, Hide(xs, u)), o, s) <==> Fails(Hide(xs + ys, u), o, s)
  {
    hide Hide, Rel, Fails, WellFormed;
    HideWellFormed(xs, u);
    HideRel(ys, Hide(xs, u), o, s, t);
    HideRel(xs + ys, u, o, s, t);
    HideFails(ys, Hide(xs, u), o, s);
    HideFails(xs + ys, u, o, s);
    forall s1: State, t1: State
      ensures Rel(Hide(xs, u), o, s1, t1) <==> HiddenRel(xs, u, o, s1, t1)
    {
      HideRel(xs, u, o, s1, t1);
    }
    forall s1: State
      ensures Fails(Hide(xs, u), o, s1) <==> HiddenFails(xs, u, o, s1)
    {
      HideFails(xs, u, o, s1);
    }
    forall s2: State, t2: State | SameOff(xs + ys, s2, s) && SameOff(xs + ys, t2, t) && Rel(u, o, s2, t2)
      ensures SameOn(xs + ys, s, t) ==> Rel(Hide(ys, Hide(xs, u)), o, s, t)
      ensures Fails(u, o, s2) ==> Fails(Hide(ys, Hide(xs, u)), o, s)
    {
      TwoScopes(xs, ys, s, s2);
      TwoScopes(xs, ys, t, t2);
      if SameOn(xs + ys, s, t) {
        // take the symbols of ys from the inner run, those of xs from the outer states
        assert HiddenRel(xs, u, o, Mixed(xs, s, s2), Mixed(xs, t, t2));
        assert Rel(Hide(xs, u), o, Mixed(xs, s, s2), Mixed(xs, t, t2));
      }
    }
    forall s2: State | SameOff(xs + ys, s2, s) && Fails(u, o, s2)
      ensures Fails(Hide(ys, Hide(xs, u)), o, s)
    {
      TwoScopes(xs, ys, s, s2);
      assert Fails(Hide(xs, u), o, Mixed(xs, s, s2));
    }
  }

  ghost function Mixed(xs: seq<Id>, outer: State, inner: State): State
  {
    (i: Id) => if i in xs then outer(i) else inner(i)
  }

  lemma TwoScopes(xs: seq<Id>, ys: seq<Id>, s: State, s2: State)
    requires SameOff(xs + ys, s2, s)
    ensures SameOff(ys, Mixed(xs, s, s2), s) && SameOff(xs, s2, Mixed(xs, s, s2))
  {
  }

  // ----- binding old_ symbols -----

  function OldMap(c: Clauses): Renaming
  {
    map x | x in Used(c) && x.kind.Old? :: BaseSym(x.id)
  }

  function BindOlds(u: Update): Update
  {
    Update(u.mod, Rename(u.tr, OldMap(u.tr)), Rename(u.pre, OldMap(u.pre)))
  }

  lemma BindOldsEx(c: Clauses, o: State, s: State, t: State)
    ensures Ex(Rename(c, OldMap(c)), Mk(o, s, t)) <==> Ex(c, Mk(s, s, t))
  {
    hide Holds, Used, Rename;
    var m := OldMap(c);
    forall w: Val | SameProgram(Mk(o, s, t), w) && Holds(Rename(c, m), w)
      ensures Ex(c, Mk(s, s, t))
    {
      RenameMeaning(c, m, w);
      forall x | x in Used(c) && Program(x)
        ensures Pull(w, m)(x) == Mk(s, s, t)(x)
      {
        assert w(Lookup(m, x)) == Mk(o, s, t)(Lookup(m, x));
      }
      ExBy(c, Mk(s, s, t), Pull(w, m));
    }
    forall w: Val | SameProgram(Mk(s, s, t), w) && Holds(c, w)
      ensures Ex(Rename(c, m), Mk(o, s, t))
    {
      var u: Val := (x: Sym) => if Program(x) then Mk(o, s, t)(x) else w(x);
      forall x | x in Used(c)
        ensures Pull(u, m)(x) == w(x)
      {
        if x.kind.Old? { LookupIn(m, x); } else { LookupOut(m, x); }
        if Program(x) { assert w(x) == Mk(s, s, t)(x); }
      }
      Coincide(c, w, Pull(u, m));
      RenameMeaning(c, m, u);
      assert SameProgram(Mk(o, s, t), u);
    }
  }

  /** Binding makes old_ symbols mean the state before the update. */
  lemma BindOldsMeaning(u: Update, o: State, s: State, t: State)
    requires WellFormed(u)
    ensures Rel(BindOlds(u), o, s, t) <==> Rel(u, s, s, t)
    ensures Fails(BindOlds(u), o, s) <==> Fails(u, s, s)
  {
    hide Ex, Mk, Used, Rename;
    BindOldsEx(u.tr, o, s, t);
    forall n: State
      ensures Ex(Rename(u.pre, OldMap(u.pre)), Mk(o, s, n)) <==> Ex(u.pre, Mk(s, s, n))
    {
      BindOldsEx(u.pre, o, s, n);
    }
  }

  lemma BindOldsWellFormed(u: Update)
    requires WellFormed(u)
    ensures WellFormed(BindOlds(u))
  {
    hide Used, Rename;
    RenamedNewOnly(u.tr, OldMap(u.tr), u.mod);
    RenamedNewOnly(u.pre, OldMap(u.pre), u.mod);
  }

  predicate NoOld(c: Clauses)
  {
    forall x :: x in Used(c) ==> !x.kind.Old?
  }

  lemma BindOldsNoOld(u: Update)
    ensures NoOld(BindOlds(u).tr) && NoOld(BindOlds(u).pre)
  {
    RenameUsed(u.tr, OldMap(u.tr));
    RenameUsed(u.pre, OldMap(u.pre));
  }

  // ----- adding symbols to the modified list -----

  function FrameUpdate(u: Update, scope: seq<Id>): Update
  {
    var extra := Select(scope, u.mod, false);
    Update(u.mod + extra, if extra == [] then u.tr else And(u.tr, Frames(extra)), u.pre)
  }

  lemma FrameUpdateMeaning(u: Update, scope: seq<Id>, o: State, s: State, t: State)
    requires WellFormed(u)
    ensures WellFormed(FrameUpdate(u, scope))
    ensures forall i :: i in scope ==> i in FrameUpdate(u, scope).mod
    ensures Rel(FrameUpdate(u, scope), o, s, t) <==> Rel(u, o, s, t)
    ensures Fails(FrameUpdate(u, scope), o, s) <==> Fails(u, o, s)
  {
    hide Ex, Mk, And, Used, Frames;
    var extra := Select(scope, u.mod, false);
    FramedEx(u.tr, extra, o, s, t);
    AndUsed(u.tr, Frames(extra));
    FramesUsed(extra);
  }
}
