/**
 Symbolic histories.  A history unrolls updates into one set of clauses about the present state, in
 which the past is named by existential symbols; one renaming per step remembers which.  Read through
 the renamings, composed backwards in time, every valuation of the clauses is a run.
 */
module Histories {
  import opened Names
  import opened Logic
  import opened ClauseOps
  import opened Updates
  import opened Hiding
  import opened Images

  // ----- histories -----

  datatype History = History(post: Clauses, maps: seq<Renaming>)

  function NewHistory(init: Clauses): History
  {
    History(init, [])
  }

  function ForwardStep(h: History, u: Update): History
  {
    History(ForwardImage(h.post, u), h.maps + [PastMap(h.post, u)])
  }

  function Assume(h: History, c: Clauses): History
  {
    History(And(h.post, RenameDistinct(c, h.post)), h.maps)
  }

  datatype Event = Stepped(u: Update) | Assumed(c: Clauses)

  predicate Events(es: seq<Event>)
  {
    forall e :: e in es ==> if e.Stepped? then Bound(e.u) else StateClauses(e.c)
  }

  /** The history after a list of steps and assumptions. */
  function Track(init: Clauses, es: seq<Event>): History
  {
    if es == [] then NewHistory(init) else
    var h := Track(init, es[..|es| - 1]);
    match es[|es| - 1]
    case Stepped(u) => ForwardStep(h, u)
    case Assumed(c) => Assume(h, c)
  }

  /** A run: the first state is initial, neighbours are steps, and assumptions hold when they are made. */
  ghost predicate IsRun(init: Clauses, es: seq<Event>, run: seq<State>)
  {
    if es == [] then |run| == 1 && InSet(init, run[0]) else
    var init', n := es[..|es| - 1], |run| - 1;
    match es[|es| - 1]
    case Stepped(u) => n > 0 && IsRun(init, init', run[..n]) && Step(u, run[n - 1], run[n])
    case Assumed(c) => n >= 0 && IsRun(init, init', run) && InSet(c, run[n])
  }

  // ----- renamings composed backwards in time -----

  /** First m1, then m2: targets of m1 that m2 renames are followed. */
  function ComposeMaps(m1: Renaming, m2: Renaming): Renaming
  {
    map x | x in m1.Keys + m2.Keys :: if x in m1 then Lookup(m2, m1[x]) else m2[x]
  }

  /** What the symbols at time j are called now. */
  function BackMap(maps: seq<Renaming>, j: nat): Renaming
    requires j <= |maps|
    decreases |maps| - j
  {
    if j == |maps| then map[] else ComposeMaps(maps[j], BackMap(maps, j + 1))
  }

  /** The renamings for all times, latest first. */
  method PastRenamings(maps: seq<Renaming>) returns (rs: seq<Renaming>)
    ensures |rs| == |maps| + 1
    ensures forall k :: 0 <= k <= |maps| ==> rs[k] == BackMap(maps, |maps| - k)
  {
    var renaming: Renaming := map[];
    rs := [renaming];
    var idx := 0;
    while idx < |maps|
      invariant 0 <= idx <= |maps| && |rs| == idx + 1
      invariant renaming == BackMap(maps, |maps| - idx)
      invariant forall k :: 0 <= k <= idx ==> rs[k] == BackMap(maps, |maps| - k)
    {
      renaming := ComposeMaps(maps[|maps| - 1 - idx], renaming);
      rs := rs + [renaming];
      idx := idx + 1;
    }
  }

  /** The renamings send program symbols to existential ones. */
  predicate PastOnly(maps: seq<Renaming>)
  {
    forall k, x :: 0 <= k < |maps| && x in maps[k] ==> x.kind.Base? && maps[k][x].kind.Skolem?
  }

  /** No step after time j renames the symbol. */
  predicate Unchanged(maps: seq<Renaming>, j: nat, x: Sym)
  {
    forall k :: j <= k < |maps| ==> x !in maps[k]
  }

  /** Step k is the first from time j on that renames the symbol. */
  predicate NextChange(maps: seq<Renaming>, j: nat, x: Sym, k: nat)
  {
    j <= k < |maps| && x in maps[k] && forall k' :: j <= k' < k ==> x !in maps[k']
  }

  lemma {:induction false} BackMapSkolems(maps: seq<Renaming>, j: nat)
    requires PastOnly(maps) && j <= |maps|
    ensures forall x :: x in BackMap(maps, j) ==> x.kind.Base? && BackMap(maps, j)[x].kind.Skolem?
    decreases |maps| - j
  {
    if j < |maps| { BackMapSkolems(maps, j + 1); }
  }

  lemma ComposeLookup(m1: Renaming, m2: Renaming, x: Sym)
    ensures Lookup(ComposeMaps(m1, m2), x) == Lookup(m2, Lookup(m1, x))
  {
  }

  lemma BackMapLookup(maps: seq<Renaming>, j: nat, x: Sym)
    requires j <= |maps|
    ensures Lookup(BackMap(maps, j), x) ==
            if j == |maps| then x else Lookup(BackMap(maps, j + 1), Lookup(maps[j], x))
  {
    if j < |maps| { ComposeLookup(maps[j], BackMap(maps, j + 1), x); }
  }

  lemma {:induction false} FreshStays(maps: seq<Renaming>, j: nat, x: Sym)
    requires PastOnly(maps) && j <= |maps| && x.kind.Skolem?
    ensures Lookup(BackMap(maps, j), x) == x
    decreases |maps| - j
  {
    hide BackMap;
    BackMapLookup(maps, j, x);
    if j < |maps| {
      LookupOut(maps[j], x);
      FreshStays(maps, j + 1, x);
    }
  }

  /** A symbol at time j is now called by the name that the first later step gave it, or by its own name
      if no later step changed it. */
  lemma {:induction false} BackMapNames(maps: seq<Renaming>, j: nat, x: Sym)
    requires PastOnly(maps) && j <= |maps|
    ensures Unchanged(maps, j, x) ==> Lookup(BackMap(maps, j), x) == x
    ensures forall k: nat :: NextChange(maps, j, x, k) ==> Lookup(BackMap(maps, j), x) == maps[k][x]
    ensures Unchanged(maps, j, x) || exists k: nat :: NextChange(maps, j, x, k)
    decreases |maps| - j
  {
    hide BackMap;
    BackMapLookup(maps, j, x);
    if j < |maps| {
      if x in maps[j] {
        LookupIn(maps[j], x);
        FreshStays(maps, j + 1, maps[j][x]);
        assert NextChange(maps, j, x, j);
        assert forall k: nat :: NextChange(maps, j, x, k) ==> k == j;
      } else {
        LookupOut(maps[j], x);
        BackMapNames(maps, j + 1, x);
        forall k: nat
          ensures NextChange(maps, j, x, k) <==> NextChange(maps, j + 1, x, k)
        {
        }
        if Unchanged(maps, j + 1, x) {
          assert Unchanged(maps, j, x);
        } else {
          var k: nat :| NextChange(maps, j + 1, x, k);
          assert NextChange(maps, j, x, k);
        }
      }
    }
  }

  /** One more step: names already given stay, and the present symbols that the step changes get theirs. */
  lemma {:induction false} BackMapSnoc(maps: seq<Renaming>, m: Renaming, j: nat, x: Sym)
    requires j <= |maps|
    ensures Lookup(BackMap(maps + [m], j), x) == Lookup(m, Lookup(BackMap(maps, j), x))
    decreases |maps| - j
  {
    hide BackMap, Lookup;
    var all := maps + [m];
    BackMapLookup(all, j, x);
    BackMapLookup(maps, j, x);
    if j < |maps| {
      assert all[j] == maps[j];
      BackMapSnoc(maps, m, j + 1, Lookup(maps[j], x));
    } else {
      assert all[j] == m;
      BackMapLookup(all, j + 1, Lookup(m, x));
    }
  }

  // ----- reading a valuation back -----

  /** The state at time j. */
  ghost function StateAt(maps: seq<Renaming>, j: nat, v: Val): State
    requires j <= |maps|
  {
    (i: Id) => v(Lookup(BackMap(maps, j), BaseSym(i)))
  }

  ghost predicate Decodes(maps: seq<Renaming>, v: Val, run: seq<State>)
  {
    |run| == |maps| + 1 && forall j: nat :: j <= |maps| ==> Same(StateAt(maps, j, v), run[j])
  }

  lemma TrackPast(init: Clauses, es: seq<Event>)
    requires StateClauses(init) && Events(es)
    ensures StateClauses(Track(init, es).post) && PastOnly(Track(init, es).maps)
  {
    hide ForwardImage, PastMap, And, RenameDistinct, StateClauses, Bound;
    if es != [] {
      var h := Track(init, es[..|es| - 1]);
      var e := es[|es| - 1];
      TrackPast(init, es[..|es| - 1]);
      assert e in es;
      if e.Stepped? {
        ForwardUsed(h.post, e.u);
      } else {
        AssumeUsed(h.post, e.c);
      }
    }
  }

  lemma AssumeUsed(p: Clauses, c: Clauses)
    requires StateClauses(p) && StateClauses(c)
    ensures StateClauses(And(p, RenameDistinct(c, p)))
  {
    hide Used, Rename;
    AndUsed(p, RenameDistinct(c, p));
    RenameUsed(c, DistinctMap(c, p));
  }

  // ----- every valuation is a run -----

  lemma ConjoinHolds(c: Clauses, d: Clauses, w: Val)
    requires Holds(Conjoin(c, d), w)
    ensures Holds(c, w) && Ex(d, w)
  {
    hide Holds, Rename, Used, And;
    var m := DistinctMap(d, c);
    AndMeaning(c, Rename(d, m), w);
    RenameMeaning(d, m, w);
    forall x: Sym | Program(x)
      ensures w(x) == Pull(w, m)(x)
    {
      LookupOut(m, x);
    }
  }

  /** The valuation before a step, from one after it. */
  ghost function Earlier(p: Clauses, u: Update, v: Val): Val
  {
    Pull(Pull(v, Unprime(u.mod)), PastMap(p, u))
  }

  lemma EarlierAt(p: Clauses, u: Update, v: Val, x: Sym)
    requires x.kind.Base? || x.kind.Skolem?
    ensures Earlier(p, u, v)(x) == v(Lookup(PastMap(p, u), x))
  {
    LookupUnprime(u.mod, Lookup(PastMap(p, u), x));
  }

  lemma EarlierNew(p: Clauses, u: Update, v: Val, i: Id)
    requires i in u.mod
    ensures Earlier(p, u, v)(NewSym(i)) == v(BaseSym(i))
  {
    hide Lookup;
    LookupOut(PastMap(p, u), NewSym(i));
    LookupUnprime(u.mod, NewSym(i));
  }

  lemma StepBack(p: Clauses, u: Update, v: Val)
    requires StateClauses(p) && Bound(u) && Holds(ForwardImage(p, u), v)
    ensures Holds(p, Earlier(p, u, v)) && Step(u, Before(Earlier(p, u, v)), Before(v))
  {
    hide Holds, Rename, Used, Earlier;
    var c := Conjoin(p, u.tr);
    var w := Earlier(p, u, v);
    assert Holds(c, w) by {
      RenameMeaning(Rename(c, PastMap(p, u)), Unprime(u.mod), v);
      RenameMeaning(c, PastMap(p, u), Pull(v, Unprime(u.mod)));
      assert w == Pull(Pull(v, Unprime(u.mod)), PastMap(p, u)) by { EarlierIs(p, u, v); }
    }
    ConjoinHolds(p, u.tr, w);
    forall i: Id
      ensures i in u.mod ==> w(NewSym(i)) == Before(v)(i)
      ensures i !in u.mod ==> w(BaseSym(i)) == Before(v)(i)
    {
      if i in u.mod { EarlierNew(p, u, v, i); } else { EarlierAt(p, u, v, BaseSym(i)); }
    }
    ReadsStep(u.tr, u.mod, w, Before(v));
  }

  lemma EarlierIs(p: Clauses, u: Update, v: Val)
    ensures Earlier(p, u, v) == Pull(Pull(v, Unprime(u.mod)), PastMap(p, u))
  {
  }

  lemma PresentState(c: Clauses, v: Val, s: State)
    requires StateClauses(c) && Ex(c, v) && Same(Before(v), s)
    ensures InSet(c, s)
  {
    OnlyBase(c, s, v) by {
      forall i: Id ensures v(BaseSym(i)) == s(i) { assert Before(v)(i) == s(i); }
    }
  }

  /** The last state read back is the present one. */
  lemma LastState(maps: seq<Renaming>, v: Val)
    ensures Same(StateAt(maps, |maps|, v), Before(v))
  {
    forall i: Id
      ensures StateAt(maps, |maps|, v)(i) == Before(v)(i)
    {
      BackMapLookup(maps, |maps|, BaseSym(i));
    }
  }

  lemma PastPrefix(maps: seq<Renaming>, m: Renaming)
    requires PastOnly(maps + [m])
    ensures PastOnly(maps)
  {
    assert forall k :: 0 <= k < |maps| ==> (maps + [m])[k] == maps[k];
  }

  lemma StateBack(maps: seq<Renaming>, p: Clauses, u: Update, j: nat, v: Val)
    requires PastOnly(maps + [PastMap(p, u)]) && j <= |maps|
    ensures Same(StateAt(maps, j, Earlier(p, u, v)), StateAt(maps + [PastMap(p, u)], j, v))
  {
    hide PastOnly, Earlier;
    forall i: Id
      ensures StateAt(maps, j, Earlier(p, u, v))(i) == StateAt(maps + [PastMap(p, u)], j, v)(i)
    {
      BackMapSnoc(maps, PastMap(p, u), j, BaseSym(i));
      PastPrefix(maps, PastMap(p, u));
      BackMapSkolems(maps, j);
      EarlierAt(p, u, v, Lookup(BackMap(maps, j), BaseSym(i)));
    }
  }

  lemma StepSame(u: Update, s: State, t: State, s': State, t': State)
    requires Step(u, s, t) && Same(s, s') && Same(t, t')
    ensures Step(u, s', t')
  {
    hide Holds;
    var w: Val :| SameProgram(Mk(s, s, t), w) && Holds(u.tr, w);
    assert SameProgram(Mk(s', s', t'), w);
  }

  lemma InSetSame(c: Clauses, s: State, t: State)
    requires InSet(c, s) && Same(s, t)
    ensures InSet(c, t)
  {
    hide Holds;
    var w: Val :| SameProgram(Mk(s, s, s), w) && Holds(c, w);
    assert SameProgram(Mk(t, t, t), w);
  }

  /** Every valuation of the history's clauses, read back through the renamings, is a run. */
  lemma {:induction false} HistorySound(init: Clauses, es: seq<Event>, v: Val, run: seq<State>)
    requires StateClauses(init) && Events(es)
    requires Holds(Track(init, es).post, v) && Decodes(Track(init, es).maps, v, run)
    ensures IsRun(init, es, run)
  {
    hide Holds, InSet, Step, StateClauses, Bound, ForwardImage, PastMap, Decodes, And, RenameDistinct, Same;
    TrackPast(init, es);
    var h := Track(init, es);
    var k := |h.maps|;
    LastDecoded(h.maps, v, run);
    if es == [] {
      HoldsEx(init, v);
      PresentState(init, v, run[0]);
    } else {
      var es' := es[..|es| - 1];
      var h' := Track(init, es');
      TrackPast(init, es');
      assert es[|es| - 1] in es;
      match es[|es| - 1]
      case Stepped(u) =>
        var w := DecodedBack(h', u, v, run);
        HistorySound(init, es', w, run[..k]);
      case Assumed(c) =>
        ConjoinHolds(h'.post, c, v);
        HistorySound(init, es', v, run);
        PresentState(c, v, run[k]);
    }
  }

  lemma LastDecoded(maps: seq<Renaming>, v: Val, run: seq<State>)
    requires Decodes(maps, v, run)
    ensures |run| == |maps| + 1 && Same(Before(v), run[|maps|])
  {
    LastState(maps, v);
    SameTwice(Before(v), StateAt(maps, |maps|, v), run[|maps|]);
  }

  /** A valuation after a step gives one before it, which is read back to the run without its last state. */
  lemma DecodedBack(h: History, u: Update, v: Val, run: seq<State>) returns (w: Val)
    requires StateClauses(h.post) && Bound(u) && PastOnly(ForwardStep(h, u).maps)
    requires Holds(ForwardStep(h, u).post, v) && Decodes(ForwardStep(h, u).maps, v, run)
    ensures |run| == |h.maps| + 2 && Holds(h.post, w) && Decodes(h.maps, w, run[..|h.maps| + 1])
    ensures Step(u, run[|h.maps|], run[|h.maps| + 1])
  {
    hide Holds, Step, StateClauses, Bound, ForwardImage, PastMap, Same, PastOnly;
    var k := |h.maps|;
    w := Earlier(h.post, u, v);
    StepBack(h.post, u, v);
    forall j: nat | j <= k
      ensures Same(StateAt(h.maps, j, w), run[..k + 1][j])
    {
      StateBack(h.maps, h.post, u, j, v);
      SameTwice(StateAt(h.maps, j, w), StateAt(h.maps + [PastMap(h.post, u)], j, v), run[j]);
    }
    LastDecoded(h.maps, w, run[..k + 1]);
    LastDecoded(ForwardStep(h, u).maps, v, run);
    StepSame(u, Before(w), Before(v), run[k], run[k + 1]);
  }

  lemma HoldsEx(c: Clauses, v: Val)
    requires Holds(c, v)
    ensures Ex(c, v)
  {
    assert SameProgram(v, v);
  }

  lemma SameTwice(s: State, t: State, r: State)
    requires (Same(s, t) || Same(t, s)) && Same(t, r)
    ensures Same(s, r)
  {
  }

  // ----- which runs are read back from some valuation -----

  /** No name of a past value is also introduced for an existential symbol of a later step or assumption. */
  ghost predicate Separate(init: Clauses, es: seq<Event>)
  {
    if es == [] then true else
    var h := Track(init, es[..|es| - 1]);
    var c := if es[|es| - 1].Stepped? then es[|es| - 1].u.tr else es[|es| - 1].c;
    Separate(init, es[..|es| - 1]) && forall y :: y in PastNames(h.maps) ==> y !in DistinctMap(c, h.post).Values
  }

  /** The names given to past values. */
  function PastNames(maps: seq<Renaming>): set<Sym>
  {
    set k, x | 0 <= k < |maps| && x in maps[k] :: maps[k][x]
  }

  /** Past values that share a name are equal in the run. */
  ghost predicate Coincident(maps: seq<Renaming>, run: seq<State>)
    requires |run| == |maps| + 1
  {
    forall j: nat, j': nat, i: Id, i': Id ::
      j <= |maps| && j' <= |maps| && NameAt(maps, j, i) == NameAt(maps, j', i') ==> run[j](i) == run[j'](i')
  }

  function NameAt(maps: seq<Renaming>, j: nat, i: Id): Sym
    requires j <= |maps|
  {
    Lookup(BackMap(maps, j), BaseSym(i))
  }

  /** The run as it is read back: some valuation of the clauses reads every value of the run. */
  ghost predicate ReadBack(init: Clauses, es: seq<Event>, run: seq<State>)
  {
    exists v: Val :: Holds(Track(init, es).post, v) && Decodes(Track(init, es).maps, v, run)
  }

  /** Runs that are read back are coincident. */
  lemma ReadBackCoincident(maps: seq<Renaming>, v: Val, run: seq<State>)
    requires Decodes(maps, v, run)
    ensures Coincident(maps, run)
  {
    forall j: nat, j': nat, i: Id, i': Id |
      j <= |maps| && j' <= |maps| && NameAt(maps, j, i) == NameAt(maps, j', i')
      ensures run[j](i) == run[j'](i')
    {
      assert Same(StateAt(maps, j, v), run[j]) && Same(StateAt(maps, j', v), run[j']);
      assert StateAt(maps, j, v)(i) == StateAt(maps, j', v)(i');
    }
  }

  /** A prefix of a coincident run is coincident. */
  lemma CoincidentPrefix(maps: seq<Renaming>, m: Renaming, run: seq<State>)
    requires |run| == |maps| + 2 && Coincident(maps + [m], run)
    ensures Coincident(maps, run[..|maps| + 1])
  {
    hide BackMap, Lookup;
    var part := run[..|maps| + 1];
    forall j: nat, j': nat, i: Id, i': Id |
      j <= |maps| && j' <= |maps| && NameAt(maps, j, i) == NameAt(maps, j', i')
      ensures part[j](i) == part[j'](i')
    {
      BackMapSnoc(maps, m, j, BaseSym(i));
      BackMapSnoc(maps, m, j', BaseSym(i'));
      assert NameAt(maps + [m], j, i) == NameAt(maps + [m], j', i');
    }
  }

  /** The valuation after a step: present values, the values before it under their new names, and the
      other existential values as they were. */
  ghost function Later(m: Renaming, past: Val, t: State): Val
  {
    (x: Sym) => LaterValue(m, past, t, x)
  }

  ghost function LaterValue(m: Renaming, past: Val, t: State, x: Sym): Table
  {
    if x.kind.Base? then t(x.id) else if x in m.Values then past(Inverse(m, x)) else past(x)
  }

  lemma LaterAt(m: Renaming, past: Val, t: State, x: Sym)
    ensures Later(m, past, t)(x) == LaterValue(m, past, t, x)
  {
  }

  lemma StepForward(p: Clauses, u: Update, w: Val, t: State)
    requires StateClauses(p) && Bound(u) && Holds(Conjoin(p, u.tr), w)
    requires forall i: Id :: i in u.mod ==> w(NewSym(i)) == t(i)
    requires forall i: Id :: i !in u.mod ==> w(BaseSym(i)) == t(i)
    ensures Holds(ForwardImage(p, u), Later(PastMap(p, u), w, t))
  {
    hide Holds, Rename, Used, Later;
    var c := Conjoin(p, u.tr);
    var m := PastMap(p, u);
    var v := Later(m, w, t);
    var z := Pull(Pull(v, Unprime(u.mod)), m);
    ConjoinUsed(p, u);
    forall x | x in Used(c)
      ensures z(x) == w(x)
    {
      PullIs(Pull(v, Unprime(u.mod)), m, x);
      PullIs(v, Unprime(u.mod), Lookup(m, x));
      LookupUnprime(u.mod, Lookup(m, x));
      LaterAt(m, w, t, Lookup(Unprime(u.mod), Lookup(m, x)));
      if x in m {
        LookupIn(m, x);
        InverseIs(m, UsedNames(c), x);
      } else {
        LookupOut(m, x);
        NotIntroduced(m, c, x);
        if x.kind.Base? { assert x == BaseSym(x.id); }
        if x.kind.New? { assert x == NewSym(x.id); }
      }
    }
    Coincide(c, w, z);
    RenameMeaning(c, m, Pull(v, Unprime(u.mod)));
    RenameMeaning(Rename(c, m), Unprime(u.mod), v);
  }

  /** A valuation of both clauses, from one of each that agree on the state. */
  lemma MergeHolds(p: Clauses, c: Clauses, w0: Val, w2: Val) returns (w: Val)
    requires StateClauses(p) && NoRigid(c) && Holds(p, w0) && Holds(c, w2)
    requires forall i: Id :: w0(BaseSym(i)) == w2(BaseSym(i))
    ensures Holds(Conjoin(p, c), w)
    ensures forall x: Sym :: Program(x) ==> w(x) == w2(x)
    ensures forall x: Sym :: x.kind.Skolem? && x !in DistinctMap(c, p).Values ==> w(x) == w0(x)
  {
    hide Holds, Used, Conjoin;
    var w1: Val := (x: Sym) => if Program(x) then w2(x) else w0(x);
    forall x | x in Used(p)
      ensures w0(x) == w1(x)
    {
      if x.kind.Base? { assert x == BaseSym(x.id); }
    }
    Coincide(p, w0, w1);
    w := Merge(DistinctMap(c, p), NoRigid(c), w1, w2);
    ConjoinWitness(p, c, w2, w1, w2);
    forall x: Sym | x.kind.Skolem? && x !in DistinctMap(c, p).Values
      ensures w(x) == w0(x)
    {
    }
  }

  lemma StateNoRigid(c: Clauses)
    requires StateClauses(c)
    ensures NoRigid(c)
  {
  }

  lemma NameKind(maps: seq<Renaming>, j: nat, i: Id)
    requires PastOnly(maps) && j <= |maps|
    ensures NameAt(maps, j, i).kind.Skolem? ==> NameAt(maps, j, i) in PastNames(maps)
    ensures NameAt(maps, j, i).kind.Skolem? || NameAt(maps, j, i) == BaseSym(i)
  {
    var x := BaseSym(i);
    BackMapNames(maps, j, x);
    if !Unchanged(maps, j, x) {
      var k: nat :| NextChange(maps, j, x, k);
      assert NameAt(maps, j, i) == maps[k][x];
    }
  }

  /** Reading back a value of the past after one more step. */
  lemma ReadLater(h: History, u: Update, w0: Val, w: Val, run: seq<State>, j: nat, i: Id)
    requires PastOnly(h.maps) && j <= |h.maps| && |run| == |h.maps| + 2
    requires Decodes(h.maps, w0, run[..|h.maps| + 1])
    requires Step(u, run[|h.maps|], run[|h.maps| + 1])
    requires Coincident(ForwardStep(h, u).maps, run)
    requires forall y :: y in PastNames(h.maps) ==> w(y) == w0(y)
    requires forall i: Id :: w(BaseSym(i)) == run[|h.maps|](i)
    ensures Later(PastMap(h.post, u), w, run[|h.maps| + 1])(NameAt(ForwardStep(h, u).maps, j, i)) == run[j](i)
  {
    hide BackMap, Lookup, Coincident, Step, Later, Apart, Injective, Conjoin, PastMap, Decodes, Same, PastNames, Used;
    var k, m := |h.maps|, PastMap(h.post, u);
    var y := NameAt(h.maps, j, i);
    BackMapSnoc(h.maps, m, j, BaseSym(i));
    NameKind(h.maps, j, i);
    DecodedValue(h.maps, w0, run[..k + 1], j, i);
    LaterAt(m, w, run[k + 1], Lookup(m, y));
    if y.kind.Skolem? {
      LookupOut(m, y);
      if y in m.Values {
        SharedName(h, u, run, j, i);
        var x := Inverse(m, y);
        assert x == BaseSym(x.id);
      }
    } else {
      PresentValue(h.maps, w0, run[..k + 1], i);
      if y in m {
        LookupIn(m, y);
        InverseIs(m, UsedNames(Conjoin(h.post, u.tr)), y);
      } else {
        LookupOut(m, y);
        StepFrame(u, run[k], run[k + 1]);
      }
    }
  }

  lemma DecodedValue(maps: seq<Renaming>, v: Val, run: seq<State>, j: nat, i: Id)
    requires Decodes(maps, v, run) && j <= |maps|
    ensures v(NameAt(maps, j, i)) == run[j](i)
  {
    assert Same(StateAt(maps, j, v), run[j]);
    assert StateAt(maps, j, v)(i) == run[j](i);
  }

  lemma PresentValue(maps: seq<Renaming>, v: Val, run: seq<State>, i: Id)
    requires Decodes(maps, v, run)
    ensures v(BaseSym(i)) == run[|maps|](i)
  {
    LastDecoded(maps, v, run);
    assert Before(v)(i) == run[|maps|](i);
  }

  lemma SharedName(h: History, u: Update, run: seq<State>, j: nat, i: Id)
    requires PastOnly(h.maps) && j <= |h.maps| && |run| == |h.maps| + 2
    requires Coincident(ForwardStep(h, u).maps, run)
    requires NameAt(h.maps, j, i).kind.Skolem? && NameAt(h.maps, j, i) in PastMap(h.post, u).Values
    ensures run[j](i) == run[|h.maps|](Inverse(PastMap(h.post, u), NameAt(h.maps, j, i)).id)
  {
    hide BackMap, Lookup;
    var k, m := |h.maps|, PastMap(h.post, u);
    var y := NameAt(h.maps, j, i);
    var x := Inverse(m, y);
    BackMapSnoc(h.maps, m, j, BaseSym(i));
    LookupOut(m, y);
    BackMapSnoc(h.maps, m, k, BaseSym(x.id));
    BackMapLookup(h.maps, k, BaseSym(x.id));
    LookupIn(m, x);
    assert x == BaseSym(x.id);
    assert NameAt(h.maps + [m], j, i) == NameAt(h.maps + [m], k, x.id);
  }

  /** Coincident runs are read back from some valuation. */
  lemma {:induction false} HistoryComplete(init: Clauses, es: seq<Event>, run: seq<State>) returns (v: Val)
    requires StateClauses(init) && Events(es) && Separate(init, es)
    requires IsRun(init, es, run) && |run| == |Track(init, es).maps| + 1 && Coincident(Track(init, es).maps, run)
    ensures Holds(Track(init, es).post, v) && Decodes(Track(init, es).maps, v, run)
  {
    hide Holds, StateClauses, Bound, ForwardImage, PastMap, Decodes, Conjoin, DistinctMap, PastNames, Coincident,
      InSet, Step;
    TrackPast(init, es);
    if es == [] {
      v := InitialValuation(init, run);
    } else {
      var es' := es[..|es| - 1];
      var h := Track(init, es');
      TrackPast(init, es');
      assert es[|es| - 1] in es;
      match es[|es| - 1]
      case Stepped(u) =>
        CoincidentPrefix(h.maps, PastMap(h.post, u), run);
        var w0 := HistoryComplete(init, es', run[..|run| - 1]);
        v := StepValuation(h, u, w0, run);
      case Assumed(c) =>
        var w0 := HistoryComplete(init, es', run);
        v := AssumeValuation(h, c, w0, run);
    }
  }

  lemma InitialValuation(init: Clauses, run: seq<State>) returns (v: Val)
    requires |run| == 1 && InSet(init, run[0])
    ensures Holds(init, v) && Decodes([], v, run)
  {
    hide Holds;
    v :| SameProgram(Mk(run[0], run[0], run[0]), v) && Holds(init, v);
    forall i: Id
      ensures StateAt([], 0, v)(i) == run[0](i)
    {
      BackMapLookup([], 0, BaseSym(i));
      assert v(BaseSym(i)) == Mk(run[0], run[0], run[0])(BaseSym(i));
    }
  }

  lemma StepValuation(h: History, u: Update, w0: Val, run: seq<State>) returns (v: Val)
    requires StateClauses(h.post) && Bound(u) && PastOnly(ForwardStep(h, u).maps) && |run| == |h.maps| + 2
    requires Holds(h.post, w0) && Decodes(h.maps, w0, run[..|h.maps| + 1])
    requires Step(u, run[|h.maps|], run[|h.maps| + 1]) && Coincident(ForwardStep(h, u).maps, run)
    requires forall y :: y in PastNames(h.maps) ==> y !in DistinctMap(u.tr, h.post).Values
    ensures Holds(ForwardStep(h, u).post, v) && Decodes(ForwardStep(h, u).maps, v, run)
  {
    hide Holds, StateClauses, ForwardImage, PastMap, Conjoin, DistinctMap, Coincident, Used;
    var k := |h.maps|;
    var s, t := run[k], run[k + 1];
    var w2: Val :| SameProgram(Mk(s, s, t), w2) && Holds(u.tr, w2);
    forall i: Id
      ensures w0(BaseSym(i)) == s(i) && w2(BaseSym(i)) == s(i) && w2(NewSym(i)) == t(i)
    {
      PresentValue(h.maps, w0, run[..k + 1], i);
      assert Mk(s, s, t)(BaseSym(i)) == s(i) && Mk(s, s, t)(NewSym(i)) == t(i);
    }
    var w := MergeHolds(h.post, u.tr, w0, w2);
    StepForward(h.post, u, w, t);
    v := Later(PastMap(h.post, u), w, t);
    PastPrefix(h.maps, PastMap(h.post, u));
    PastSkolems(h.maps);
    forall j: nat, i: Id | j <= k + 1
      ensures StateAt(ForwardStep(h, u).maps, j, v)(i) == run[j](i)
    {
      if j <= k {
        ReadLater(h, u, w0, w, run, j, i);
      } else {
        BackMapLookup(ForwardStep(h, u).maps, j, BaseSym(i));
        LaterAt(PastMap(h.post, u), w, t, BaseSym(i));
      }
    }
  }

  lemma PastSkolems(maps: seq<Renaming>)
    requires PastOnly(maps)
    ensures forall y :: y in PastNames(maps) ==> y.kind.Skolem?
  {
  }

  lemma AssumeValuation(h: History, c: Clauses, w0: Val, run: seq<State>) returns (v: Val)
    requires StateClauses(h.post) && StateClauses(c) && PastOnly(h.maps) && |run| == |h.maps| + 1
    requires Holds(h.post, w0) && Decodes(h.maps, w0, run) && InSet(c, run[|h.maps|])
    requires forall y :: y in PastNames(h.maps) ==> y !in DistinctMap(c, h.post).Values
    ensures Holds(Assume(h, c).post, v) && Decodes(h.maps, v, run)
  {
    hide Holds, Used, DistinctMap;
    var s := run[|h.maps|];
    var w2: Val :| SameProgram(Mk(s, s, s), w2) && Holds(c, w2);
    forall i: Id
      ensures w0(BaseSym(i)) == s(i) && w2(BaseSym(i)) == s(i)
    {
      PresentValue(h.maps, w0, run, i);
      assert Mk(s, s, s)(BaseSym(i)) == s(i);
    }
    StateNoRigid(c);
    v := MergeHolds(h.post, c, w0, w2);
    PastSkolems(h.maps);
    forall j: nat, i: Id | j <= |h.maps|
      ensures StateAt(h.maps, j, v)(i) == run[j](i)
    {
      NameKind(h.maps, j, i);
      assert Same(StateAt(h.maps, j, w0), run[j]);
      assert StateAt(h.maps, j, w0)(i) == run[j](i);
    }
  }

  /** Exactly the runs in which past values that share a name are equal are read back. */
  lemma HistoryExact(init: Clauses, es: seq<Event>, run: seq<State>)
    requires StateClauses(init) && Events(es) && Separate(init, es)
    ensures ReadBack(init, es, run) <==>
            && IsRun(init, es, run) && |run| == |Track(init, es).maps| + 1
            && Coincident(Track(init, es).maps, run)
  {
    hide Holds, Decodes, IsRun, Coincident, Track, Separate, StateClauses;
    forall v: Val | Holds(Track(init, es).post, v) && Decodes(Track(init, es).maps, v, run)
      ensures IsRun(init, es, run) && |run| == |Track(init, es).maps| + 1 && Coincident(Track(init, es).maps, run)
    {
      HistorySound(init, es, v, run);
      LastDecoded(Track(init, es).maps, v, run);
      ReadBackCoincident(Track(init, es).maps, v, run);
    }
    if IsRun(init, es, run) && |run| == |Track(init, es).maps| + 1 && Coincident(Track(init, es).maps, run) {
      var v := HistoryComplete(init, es, run);
    }
  }

  lemma {:induction false} RunLength(init: Clauses, es: seq<Event>, run: seq<State>)
    requires IsRun(init, es, run)
    ensures |run| == |Track(init, es).maps| + 1
  {
    hide InSet, Step, ForwardImage, PastMap;
    if es != [] {
      RunLength(init, es[..|es| - 1], if es[|es| - 1].Stepped? then run[..|run| - 1] else run);
    }
  }

  // ----- when every run is read back -----

  /** Every step gives names that no earlier step gave. */
  ghost predicate NamesFresh(init: Clauses, es: seq<Event>)
  {
    if es == [] then true else
    var h := Track(init, es[..|es| - 1]);
    && NamesFresh(init, es[..|es| - 1])
    && (es[|es| - 1].Stepped? ==>
          forall y :: y in PastNames(h.maps) ==> y !in PastMap(h.post, es[|es| - 1].u).Values)
  }

  lemma StepCoincident(h: History, u: Update, run: seq<State>)
    requires PastOnly(ForwardStep(h, u).maps) && Bound(u) && |run| == |h.maps| + 2
    requires Coincident(h.maps, run[..|h.maps| + 1]) && Step(u, run[|h.maps|], run[|h.maps| + 1])
    requires forall y :: y in PastNames(h.maps) ==> y !in PastMap(h.post, u).Values
    ensures Coincident(ForwardStep(h, u).maps, run)
  {
    hide BackMap, Lookup, PastNames, Step, Bound;
    var k, maps := |h.maps|, ForwardStep(h, u).maps;
    forall j: nat, j': nat, i: Id, i': Id |
      j <= j' <= k + 1 && NameAt(maps, j, i) == NameAt(maps, j', i')
      ensures run[j](i) == run[j'](i')
    {
      if j == k + 1 {
        BackMapLookup(maps, j, BaseSym(i));
        BackMapLookup(maps, j', BaseSym(i'));
      } else {
        OneName(h, u, run, j, j', i, i');
      }
    }
  }

  lemma OneName(h: History, u: Update, run: seq<State>, j: nat, j': nat, i: Id, i': Id)
    requires PastOnly(ForwardStep(h, u).maps) && |run| == |h.maps| + 2
    requires Coincident(h.maps, run[..|h.maps| + 1]) && Step(u, run[|h.maps|], run[|h.maps| + 1])
    requires forall y :: y in PastNames(h.maps) ==> y !in PastMap(h.post, u).Values
    requires j <= |h.maps| && j <= j' <= |h.maps| + 1
    requires NameAt(ForwardStep(h, u).maps, j, i) == NameAt(ForwardStep(h, u).maps, j', i')
    ensures run[j](i) == run[j'](i')
  {
    hide BackMap, Lookup, PastNames, Step, PastMap, Conjoin, NameAt, Coincident, PastOnly;
    var k, m := |h.maps|, PastMap(h.post, u);
    PastPrefix(h.maps, m);
    PastSkolems(h.maps);
    var part := run[..k + 1];
    var y := NameAt(h.maps, j, i);
    NameAfter(h.maps, m, j, i);
    NameKind(h.maps, j, i);
    if y in m { LookupIn(m, y); } else { LookupOut(m, y); }
    if j' <= k {
      var y' := NameAt(h.maps, j', i');
      NameAfter(h.maps, m, j', i');
      NameKind(h.maps, j', i');
      if y' in m { LookupIn(m, y'); } else { LookupOut(m, y'); }
      assert y == y';
      OneValue(h.maps, part, j, j', i, i');
    } else {
      NameNow(h.maps + [m], i');
      NameNow(h.maps, i);
      assert y == BaseSym(i') && y !in m;
      OneValue(h.maps, part, j, k, i, i);
      StepFrame(u, run[k], run[k + 1]);
    }
  }

  lemma NameAfter(maps: seq<Renaming>, m: Renaming, j: nat, i: Id)
    requires j <= |maps|
    ensures NameAt(maps + [m], j, i) == Lookup(m, NameAt(maps, j, i))
  {
    BackMapSnoc(maps, m, j, BaseSym(i));
  }

  lemma NameNow(maps: seq<Renaming>, i: Id)
    ensures NameAt(maps, |maps|, i) == BaseSym(i)
  {
    BackMapLookup(maps, |maps|, BaseSym(i));
  }

  lemma OneValue(maps: seq<Renaming>, run: seq<State>, j: nat, j': nat, i: Id, i': Id)
    requires |run| == |maps| + 1 && Coincident(maps, run) && j <= |maps| && j' <= |maps|
    requires NameAt(maps, j, i) == NameAt(maps, j', i')
    ensures run[j](i) == run[j'](i')
  {
    hide NameAt;
  }

  lemma {:induction false} FreshCoincident(init: Clauses, es: seq<Event>, run: seq<State>)
    requires StateClauses(init) && Events(es) && NamesFresh(init, es)
    requires IsRun(init, es, run) && |run| == |Track(init, es).maps| + 1
    ensures Coincident(Track(init, es).maps, run)
  {
    hide InSet, Step, ForwardImage, PastMap, Coincident, StateClauses, Bound, PastNames;
    TrackPast(init, es);
    if es == [] {
      FirstCoincident(run);
    } else {
      var es' := es[..|es| - 1];
      assert es[|es| - 1] in es;
      match es[|es| - 1]
      case Stepped(u) =>
        FreshCoincident(init, es', run[..|run| - 1]);
        StepCoincident(Track(init, es'), u, run);
      case Assumed(c) => FreshCoincident(init, es', run);
    }
  }

  lemma FirstCoincident(run: seq<State>)
    requires |run| == 1
    ensures Coincident([], run)
  {
    forall i: Id
      ensures NameAt([], 0, i) == BaseSym(i)
    {
      BackMapLookup([], 0, BaseSym(i));
    }
  }

  /** With names that are fresh against all earlier ones, the runs are exactly what is read back. */
  lemma HistoryFresh(init: Clauses, es: seq<Event>, run: seq<State>)
    requires StateClauses(init) && Events(es) && Separate(init, es) && NamesFresh(init, es)
    ensures ReadBack(init, es, run) <==> IsRun(init, es, run)
  {
    hide ReadBack, IsRun, Coincident, Track, Separate, NamesFresh, StateClauses;
    HistoryExact(init, es, run);
    if IsRun(init, es, run) {
      RunLength(init, es, run);
      FreshCoincident(init, es, run);
    }
  }

  // ----- the present states -----

  ghost predicate EndsIn(init: Clauses, es: seq<Event>, run: seq<State>, t: State)
  {
    IsRun(init, es, run) && |run| > 0 && Same(run[|run| - 1], t)
  }

  /** The clauses of the history describe exactly the states in which runs end, whatever the names. */
  lemma {:induction false} HistoryPresent(init: Clauses, es: seq<Event>, t: State)
    requires StateClauses(init) && Events(es)
    ensures InSet(Track(init, es).post, t) <==> exists run: seq<State> :: EndsIn(init, es, run, t)
  {
    hide InSet, Step, ForwardImage, PastMap, StateClauses, Bound, And, RenameDistinct, Same;
    TrackPast(init, es);
    if es == [] {
      FirstPresent(init, t);
    } else {
      var es' := es[..|es| - 1];
      TrackPast(init, es');
      assert es[|es| - 1] in es;
      forall s: State
        ensures InSet(Track(init, es').post, s) <==> exists run: seq<State> :: EndsIn(init, es', run, s)
      {
        HistoryPresent(init, es', s);
      }
      match es[|es| - 1]
      case Stepped(u) => StepPresent(init, es, u, t);
      case Assumed(c) => AssumePresent(init, es, c, t);
    }
  }

  ghost predicate Present(init: Clauses, es: seq<Event>)
  {
    forall s: State :: InSet(Track(init, es).post, s) <==> exists run: seq<State> :: EndsIn(init, es, run, s)
  }

  lemma FirstPresent(init: Clauses, t: State)
    ensures InSet(init, t) <==> exists run: seq<State> :: EndsIn(init, [], run, t)
  {
    hide InSet;
    if InSet(init, t) {
      assert EndsIn(init, [], [t], t);
    }
    forall run: seq<State> | EndsIn(init, [], run, t)
      ensures InSet(init, t)
    {
      InSetSame(init, run[0], t);
    }
  }

  lemma StepPresent(init: Clauses, es: seq<Event>, u: Update, t: State)
    requires es != [] && es[|es| - 1] == Stepped(u)
    requires StateClauses(Track(init, es[..|es| - 1]).post) && Bound(u)
    requires Present(init, es[..|es| - 1])
    ensures InSet(Track(init, es).post, t) <==> exists run: seq<State> :: EndsIn(init, es, run, t)
  {
    assert Shaped(u);
    hide InSet, Step, ForwardImage, PastMap, StateClauses, Bound, EndsIn, Track;
    var es' := es[..|es| - 1];
    var p := Track(init, es').post;
    assert Track(init, es).post == ForwardImage(p, u) by { TrackStep(init, es, u); }
    ForwardImageMeaning(p, u, t);
    if s: State :| InSet(p, s) && Step(u, s, t) {
      var run: seq<State> :| EndsIn(init, es', run, s);
      RunLonger(init, es, u, run, s, t);
    }
    forall run: seq<State> | EndsIn(init, es, run, t)
      ensures InSet(Track(init, es).post, t)
    {
      var s := RunShorter(init, es, u, run, t);
    }
  }

  lemma TrackStep(init: Clauses, es: seq<Event>, u: Update)
    requires es != [] && es[|es| - 1] == Stepped(u)
    ensures Track(init, es).post == ForwardImage(Track(init, es[..|es| - 1]).post, u)
  {
    hide ForwardImage;
  }

  lemma RunLonger(init: Clauses, es: seq<Event>, u: Update, run: seq<State>, s: State, t: State)
    requires es != [] && es[|es| - 1] == Stepped(u) && EndsIn(init, es[..|es| - 1], run, s) && Step(u, s, t)
    ensures EndsIn(init, es, run + [t], t)
  {
    hide Step, Same;
    SameRefl(t);
    SameSym(run[|run| - 1], s);
    StepSame(u, s, t, run[|run| - 1], t);
    var run' := run + [t];
    assert run'[..|run'| - 1] == run;
  }

  lemma RunShorter(init: Clauses, es: seq<Event>, u: Update, run: seq<State>, t: State) returns (s: State)
    requires es != [] && es[|es| - 1] == Stepped(u) && EndsIn(init, es, run, t) && Present(init, es[..|es| - 1])
    ensures InSet(Track(init, es[..|es| - 1]).post, s) && Step(u, s, t)
  {
    hide Step, Same, InSet, Track;
    var k := |run| - 1;
    s := run[k - 1];
    SameRefl(s);
    StepSame(u, s, run[k], s, t);
    assert EndsIn(init, es[..|es| - 1], run[..k], s);
  }

  lemma SameRefl(s: State)
    ensures Same(s, s)
  {
  }

  lemma SameSym(s: State, t: State)
    requires Same(s, t)
    ensures Same(t, s)
  {
  }

  lemma AssumePresent(init: Clauses, es: seq<Event>, c: Clauses, t: State)
    requires es != [] && es[|es| - 1] == Assumed(c)
    requires StateClauses(Track(init, es[..|es| - 1]).post) && StateClauses(c)
    requires Present(init, es[..|es| - 1])
    ensures InSet(Track(init, es).post, t) <==> exists run: seq<State> :: EndsIn(init, es, run, t)
  {
    hide InSet, Same, Holds, And, RenameDistinct;
    var es' := es[..|es| - 1];
    var p := Track(init, es').post;
    assert InSet(Track(init, es).post, t) <==> InSet(p, t) && InSet(c, t) by {
      StateNoRigid(c);
      ConjoinMeaning(p, c, Mk(t, t, t));
      InSetIs(Conjoin(p, c), t);
      InSetIs(p, t);
      InSetIs(c, t);
    }
    if run: seq<State> :| InSet(c, t) && EndsIn(init, es', run, t) {
      SameSym(run[|run| - 1], t);
      InSetSame(c, t, run[|run| - 1]);
      assert EndsIn(init, es, run, t);
    }
    forall run: seq<State> | EndsIn(init, es, run, t)
      ensures InSet(p, t) && InSet(c, t)
    {
      assert EndsIn(init, es', run, t);
      InSetSame(c, run[|run| - 1], t);
    }
  }
}
