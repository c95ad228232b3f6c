/**
 Which runs a history reads back, whatever the names.  A run comes with values for the existential symbols
 of its clauses; the history names the past values and these values, and it is read back exactly if all that
 share a name are equal.
 */
module Readings {
  import opened Names
  import opened Logic
  import opened ClauseOps
  import opened Updates
  import opened Hiding
  import opened Images
  import opened Histories

  // ----- runs with values for the existential symbols -----

  function ClauseOf(e: Event): Clauses
  {
    match e
    case Stepped(u) => u.tr
    case Assumed(c) => c
  }

  /** The existential symbols of the event's clauses under the names that the history gives them. */
  function EventMap(init: Clauses, es: seq<Event>): Renaming
    requires es != []
  {
    DistinctMap(ClauseOf(es[|es| - 1]), Track(init, es[..|es| - 1]).post)
  }

  /** Program symbols as in a step from s to t, existential ones as in w. */
  ghost function Filled(s: State, t: State, w: Val): Val
  {
    (x: Sym) => if Program(x) then Mk(s, s, t)(x) else w(x)
  }

  /** The values ws[0] witness the initial clauses, ws[k + 1] the clauses of event k. */
  ghost predicate Witnessed(init: Clauses, es: seq<Event>, run: seq<State>, ws: seq<Val>)
  {
    if es == [] then |run| == 1 && |ws| == 1 && Holds(init, Filled(run[0], run[0], ws[0])) else
    var init', n, m := es[..|es| - 1], |run| - 1, |ws| - 1;
    m > 0 &&
    match es[|es| - 1]
    case Stepped(u) =>
      && n > 0 && Witnessed(init, init', run[..n], ws[..m])
      && Holds(u.tr, Filled(run[n - 1], run[n], ws[m])) && forall i: Id :: i !in u.mod ==> run[n](i) == run[n - 1](i)
    case Assumed(c) => n >= 0 && Witnessed(init, init', run, ws[..m]) && Holds(c, Filled(run[n], run[n], ws[m]))
  }

  ghost predicate HasWitnesses(init: Clauses, es: seq<Event>, run: seq<State>)
  {
    exists ws: seq<Val> :: Witnessed(init, es, run, ws)
  }

  lemma FilledProgram(s: State, t: State, w: Val)
    ensures SameProgram(Mk(s, s, t), Filled(s, t, w))
  {
  }

  lemma FilledSame(s: State, t: State, w: Val, v: Val, c: Clauses)
    requires SameProgram(Mk(s, s, t), v) && forall x :: x in Used(c) && !Program(x) ==> w(x) == v(x)
    ensures Holds(c, Filled(s, t, w)) <==> Holds(c, v)
  {
    Coincide(c, Filled(s, t, w), v);
  }

  /** The runs are the runs that have witnesses. */
  lemma {:induction false} RunsWitnessed(init: Clauses, es: seq<Event>, run: seq<State>)
    ensures IsRun(init, es, run) <==> HasWitnesses(init, es, run)
  {
    hide Holds, Filled, InSet, Step, Track;
    if es == [] {
      FirstWitnessed(init, run);
    } else {
      var init', n := es[..|es| - 1], |run| - 1;
      match es[|es| - 1] {
        case Stepped(u) =>
          if n > 0 {
            RunsWitnessed(init, init', run[..n]);
            StepWitnessed(init, es, u, run);
          }
        case Assumed(c) =>
          if n >= 0 {
            RunsWitnessed(init, init', run);
            AssumeWitnessed(init, es, c, run);
          }
      }
    }
  }

  lemma FirstWitnessed(init: Clauses, run: seq<State>)
    ensures IsRun(init, [], run) <==> HasWitnesses(init, [], run)
  {
    hide Holds, Filled;
    if |run| == 1 {
      if w: Val :| SameProgram(Mk(run[0], run[0], run[0]), w) && Holds(init, w) {
        FilledSame(run[0], run[0], w, w, init);
        assert Witnessed(init, [], run, [w]);
      }
      if ws: seq<Val> :| Witnessed(init, [], run, ws) {
        FilledProgram(run[0], run[0], ws[0]);
      }
    }
  }

  lemma StepWitnessed(init: Clauses, es: seq<Event>, u: Update, run: seq<State>)
    requires es != [] && es[|es| - 1] == Stepped(u) && |run| > 1
    requires IsRun(init, es[..|es| - 1], run[..|run| - 1]) <==>
             HasWitnesses(init, es[..|es| - 1], run[..|run| - 1])
    ensures IsRun(init, es, run) <==> HasWitnesses(init, es, run)
  {
    hide Holds, Filled;
    var es', n := es[..|es| - 1], |run| - 1;
    if IsRun(init, es, run) {
      hide IsRun;
      var ws: seq<Val> :| Witnessed(init, es', run[..n], ws);
      var w: Val :| SameProgram(Mk(run[n - 1], run[n - 1], run[n]), w) && Holds(u.tr, w);
      FilledSame(run[n - 1], run[n], w, w, u.tr);
      WitnessedSome(init, es', run[..n], ws);
      WitnessedLonger(init, es, run, ws, w);
    }
    if HasWitnesses(init, es, run) {
      var ws: seq<Val> :| Witnessed(init, es, run, ws);
      WitnessedShorter(init, es, run, ws);
      FilledProgram(run[n - 1], run[n], ws[|ws| - 1]);
    }
  }

  lemma WitnessedShorter(init: Clauses, es: seq<Event>, run: seq<State>, ws: seq<Val>)
    requires es != [] && Witnessed(init, es, run, ws)
    ensures |ws| > 1
    ensures match es[|es| - 1]
            case Stepped(u) =>
              && |run| > 1 && HasWitnesses(init, es[..|es| - 1], run[..|run| - 1])
              && Holds(u.tr, Filled(run[|run| - 2], run[|run| - 1], ws[|ws| - 1]))
              && forall i: Id :: i !in u.mod ==> run[|run| - 1](i) == run[|run| - 2](i)
            case Assumed(c) =>
              && |run| > 0 && HasWitnesses(init, es[..|es| - 1], run)
              && Holds(c, Filled(run[|run| - 1], run[|run| - 1], ws[|ws| - 1]))
  {
    hide Holds, Filled;
  }

  lemma WitnessedSome(init: Clauses, es: seq<Event>, run: seq<State>, ws: seq<Val>)
    requires Witnessed(init, es, run, ws)
    ensures |ws| > 0
  {
  }

  lemma WitnessedLonger(init: Clauses, es: seq<Event>, run: seq<State>, ws: seq<Val>, w: Val)
    requires es != [] && |ws| > 0
    requires match es[|es| - 1]
             case Stepped(u) =>
               && |run| > 1 && Witnessed(init, es[..|es| - 1], run[..|run| - 1], ws)
               && Holds(u.tr, Filled(run[|run| - 2], run[|run| - 1], w))
               && forall i: Id :: i !in u.mod ==> run[|run| - 1](i) == run[|run| - 2](i)
             case Assumed(c) =>
               && |run| > 0 && Witnessed(init, es[..|es| - 1], run, ws)
               && Holds(c, Filled(run[|run| - 1], run[|run| - 1], w))
    ensures Witnessed(init, es, run, ws + [w])
  {
    hide Holds, Filled;
    assert (ws + [w])[..|ws|] == ws;
  }

  lemma AssumeWitnessed(init: Clauses, es: seq<Event>, c: Clauses, run: seq<State>)
    requires es != [] && es[|es| - 1] == Assumed(c) && |run| > 0
    requires IsRun(init, es[..|es| - 1], run) <==> HasWitnesses(init, es[..|es| - 1], run)
    ensures IsRun(init, es, run) <==> HasWitnesses(init, es, run)
  {
    hide Holds, Filled;
    var es', n := es[..|es| - 1], |run| - 1;
    if IsRun(init, es, run) {
      hide IsRun;
      var ws: seq<Val> :| Witnessed(init, es', run, ws);
      var w: Val :| SameProgram(Mk(run[n], run[n], run[n]), w) && Holds(c, w);
      FilledSame(run[n], run[n], w, w, c);
      WitnessedSome(init, es', run, ws);
      WitnessedLonger(init, es, run, ws, w);
    }
    if HasWitnesses(init, es, run) {
      var ws: seq<Val> :| Witnessed(init, es, run, ws);
      WitnessedShorter(init, es, run, ws);
      FilledProgram(run[n], run[n], ws[|ws| - 1]);
    }
  }

  // ----- reading the existential symbols back -----

  /** The valuation has the witnesses' values under the names that the history gives them. */
  ghost predicate Recalls(init: Clauses, es: seq<Event>, ws: seq<Val>, v: Val)
  {
    if es == [] then |ws| == 1 && forall y :: y in Used(init) && y.kind.Skolem? ==> v(y) == ws[0](y) else
    var m := |ws| - 1;
    && m > 0 && Recalls(init, es[..|es| - 1], ws[..m], v)
    && forall y :: y in EventMap(init, es) ==> v(EventMap(init, es)[y]) == ws[m](y)
  }

  /** The witnesses that a valuation gives. */
  ghost function Recalled(init: Clauses, es: seq<Event>, v: Val): (ws: seq<Val>)
    ensures |ws| == |es| + 1
  {
    if es == [] then [v] else Recalled(init, es[..|es| - 1], v) + [Pull(v, EventMap(init, es))]
  }

  lemma {:induction false} RecalledRecalls(init: Clauses, es: seq<Event>, v: Val)
    ensures Recalls(init, es, Recalled(init, es, v), v)
  {
    hide EventMap;
    if es != [] {
      var es' := es[..|es| - 1];
      RecalledRecalls(init, es', v);
      assert Recalled(init, es, v)[..|es|] == Recalled(init, es', v);
      forall y | y in EventMap(init, es)
        ensures v(EventMap(init, es)[y]) == Pull(v, EventMap(init, es))(y)
      {
        LookupIn(EventMap(init, es), y);
      }
    }
  }

  /** Only the existential symbols of the valuation matter. */
  lemma {:induction false} RecallsSame(init: Clauses, es: seq<Event>, ws: seq<Val>, v: Val, w: Val)
    requires Recalls(init, es, ws, v) && forall y: Sym :: y.kind.Skolem? ==> v(y) == w(y)
    ensures Recalls(init, es, ws, w)
  {
    if es != [] { RecallsSame(init, es[..|es| - 1], ws[..|ws| - 1], v, w); }
  }

  /** The forward image holds when the clauses before and the step hold one step earlier. */
  lemma ForwardHolds(p: Clauses, u: Update, v: Val)
    ensures Holds(ForwardImage(p, u), v) <==>
            Holds(p, Earlier(p, u, v)) && Holds(u.tr, Pull(Earlier(p, u, v), DistinctMap(u.tr, p)))
  {
    hide Holds, Rename, Used, Earlier, And, DistinctMap;
    var c := Conjoin(p, u.tr);
    var m := DistinctMap(u.tr, p);
    RenameMeaning(Rename(c, PastMap(p, u)), Unprime(u.mod), v);
    RenameMeaning(c, PastMap(p, u), Pull(v, Unprime(u.mod)));
    EarlierIs(p, u, v);
    AndMeaning(p, Rename(u.tr, m), Earlier(p, u, v));
    RenameMeaning(u.tr, m, Earlier(p, u, v));
  }

  /** The valuation one step earlier reads the step's clauses as the run and the witnesses do. */
  lemma StepHolds(p: Clauses, u: Update, v: Val, s: State, t: State, w: Val)
    requires Bound(u) && Same(Before(Earlier(p, u, v)), s) && Same(Before(v), t)
    requires forall y :: y in DistinctMap(u.tr, p) ==> v(DistinctMap(u.tr, p)[y]) == w(y)
    ensures Holds(u.tr, Pull(Earlier(p, u, v), DistinctMap(u.tr, p))) <==> Holds(u.tr, Filled(s, t, w))
  {
    hide Holds, Earlier, Lookup;
    var m := DistinctMap(u.tr, p);
    var z := Pull(Earlier(p, u, v), m);
    forall x | x in Used(u.tr)
      ensures z(x) == Filled(s, t, w)(x)
    {
      if x.kind.Skolem? {
        LookupIn(m, x);
        EarlierAt(p, u, v, m[x]);
        LookupOut(PastMap(p, u), m[x]);
      } else {
        LookupOut(m, x);
        if x.kind.New? {
          EarlierNew(p, u, v, x.id);
          assert x == NewSym(x.id) && Before(v)(x.id) == t(x.id);
        } else {
          assert x == BaseSym(x.id) && Before(Earlier(p, u, v))(x.id) == s(x.id);
        }
      }
    }
    Coincide(u.tr, z, Filled(s, t, w));
  }

  lemma StepFramed(p: Clauses, u: Update, v: Val, s: State, t: State)
    requires Same(Before(Earlier(p, u, v)), s) && Same(Before(v), t)
    ensures forall i: Id :: i !in u.mod ==> t(i) == s(i)
  {
    hide Earlier;
    forall i: Id | i !in u.mod
      ensures t(i) == s(i)
    {
      EarlierAt(p, u, v, BaseSym(i));
      LookupOut(PastMap(p, u), BaseSym(i));
      assert Before(Earlier(p, u, v))(i) == s(i) && Before(v)(i) == t(i);
    }
  }

  lemma AssumedHolds(p: Clauses, c: Clauses, v: Val, s: State, w: Val)
    requires StateClauses(c) && Same(Before(v), s)
    requires forall y :: y in DistinctMap(c, p) ==> v(DistinctMap(c, p)[y]) == w(y)
    ensures Holds(And(p, RenameDistinct(c, p)), v) <==> Holds(p, v) && Holds(c, Filled(s, s, w))
  {
    hide Holds, Rename, And, Lookup;
    var m := DistinctMap(c, p);
    AndMeaning(p, Rename(c, m), v);
    RenameMeaning(c, m, v);
    forall x | x in Used(c)
      ensures Pull(v, m)(x) == Filled(s, s, w)(x)
    {
      if x.kind.Skolem? {
        LookupIn(m, x);
      } else {
        LookupOut(m, x);
        assert x == BaseSym(x.id) && Before(v)(x.id) == s(x.id);
      }
    }
    Coincide(c, Pull(v, m), Filled(s, s, w));
  }

  lemma FirstHolds(init: Clauses, v: Val, s: State, w: Val)
    requires StateClauses(init) && Same(Before(v), s)
    requires forall y :: y in Used(init) && y.kind.Skolem? ==> v(y) == w(y)
    ensures Holds(init, v) <==> Holds(init, Filled(s, s, w))
  {
    hide Holds;
    forall x | x in Used(init)
      ensures v(x) == Filled(s, s, w)(x)
    {
      if x.kind.Base? { assert x == BaseSym(x.id) && Before(v)(x.id) == s(x.id); }
    }
    Coincide(init, v, Filled(s, s, w));
  }

  /** A valuation that reads a run and its witnesses satisfies the clauses exactly if these witness the run. */
  lemma {:induction false} HistoryValues(init: Clauses, es: seq<Event>, run: seq<State>, ws: seq<Val>, v: Val)
    requires StateClauses(init) && Events(es)
    requires Decodes(Track(init, es).maps, v, run) && Recalls(init, es, ws, v)
    ensures Holds(Track(init, es).post, v) <==> Witnessed(init, es, run, ws)
    decreases es, 1
  {
    hide Holds, Step, StateClauses, Bound, ForwardImage, PastMap, Decodes, And, RenameDistinct, Same, Filled,
      DistinctMap;
    TrackPast(init, es);
    var h := Track(init, es);
    LastDecoded(h.maps, v, run);
    if es == [] {
      FirstHolds(init, v, run[0], ws[0]);
    } else {
      var es', m := es[..|es| - 1], |ws| - 1;
      var h' := Track(init, es');
      TrackPast(init, es');
      assert es[|es| - 1] in es;
      match es[|es| - 1]
      case Stepped(u) => StepValues(init, es, u, run, ws, v);
      case Assumed(c) =>
        HistoryValues(init, es', run, ws[..m], v);
        AssumedHolds(h'.post, c, v, run[|run| - 1], ws[m]);
    }
  }

  lemma {:induction false} StepValues(init: Clauses, es: seq<Event>, u: Update, run: seq<State>, ws: seq<Val>, v: Val)
    requires es != [] && es[|es| - 1] == Stepped(u) && StateClauses(init) && Events(es)
    requires Decodes(Track(init, es).maps, v, run) && Recalls(init, es, ws, v)
    ensures Holds(Track(init, es).post, v) <==> Witnessed(init, es, run, ws)
    decreases es, 0
  {
    hide Holds, StateClauses, Bound, ForwardImage, PastMap, Decodes, Same, Filled, DistinctMap, Earlier;
    var es', m := es[..|es| - 1], |ws| - 1;
    var h := Track(init, es');
    TrackPast(init, es);
    assert es[|es| - 1] in es;
    var w, k := Earlier(h.post, u, v), |h.maps|;
    EarlierDecodes(h, u, v, run);
    RecallsEarlier(init, es', ws[..m], h.post, u, v);
    HistoryValues(init, es', run[..k + 1], ws[..m], w);
    ForwardHolds(h.post, u, v);
    StepHolds(h.post, u, v, run[k], run[k + 1], ws[m]);
    StepFramed(h.post, u, v, run[k], run[k + 1]);
  }

  lemma EarlierDecodes(h: History, u: Update, v: Val, run: seq<State>)
    requires PastOnly(ForwardStep(h, u).maps) && Decodes(ForwardStep(h, u).maps, v, run)
    ensures |run| == |h.maps| + 2 && Decodes(h.maps, Earlier(h.post, u, v), run[..|h.maps| + 1])
    ensures Same(Before(Earlier(h.post, u, v)), run[|h.maps|]) && Same(Before(v), run[|h.maps| + 1])
  {
    hide PastMap, Same, PastOnly, Earlier;
    var k := |h.maps|;
    forall j: nat | j <= k
      ensures Same(StateAt(h.maps, j, Earlier(h.post, u, v)), run[..k + 1][j])
    {
      StateBack(h.maps, h.post, u, j, v);
      SameTwice(StateAt(h.maps, j, Earlier(h.post, u, v)), StateAt(h.maps + [PastMap(h.post, u)], j, v), run[j]);
    }
    LastDecoded(h.maps, Earlier(h.post, u, v), run[..k + 1]);
    LastDecoded(ForwardStep(h, u).maps, v, run);
  }

  lemma RecallsEarlier(init: Clauses, es: seq<Event>, ws: seq<Val>, p: Clauses, u: Update, v: Val)
    requires Recalls(init, es, ws, v)
    ensures Recalls(init, es, ws, Earlier(p, u, v))
  {
    hide Earlier, Recalls;
    forall y: Sym | y.kind.Skolem?
      ensures v(y) == Earlier(p, u, v)(y)
    {
      EarlierAt(p, u, v, y);
      LookupOut(PastMap(p, u), y);
    }
    RecallsSame(init, es, ws, v, Earlier(p, u, v));
  }

  // ----- what shares a name -----

  /** The history calls the past value of i at time j by the name x. */
  ghost predicate PastCoordinate(maps: seq<Renaming>, run: seq<State>, x: Sym, t: Table)
    requires |run| == |maps| + 1
  {
    exists j: nat, i: Id :: j <= |maps| && x == NameAt(maps, j, i) && t == run[j](i)
  }

  /** The history calls the value t of an existential symbol by the name x. */
  ghost predicate WitnessCoordinate(init: Clauses, es: seq<Event>, ws: seq<Val>, x: Sym, t: Table)
    requires |ws| == |es| + 1
  {
    if es == [] then x in Used(init) && x.kind.Skolem? && t == ws[0](x) else
    || WitnessCoordinate(init, es[..|es| - 1], ws[..|es|], x, t)
    || exists y :: y in EventMap(init, es) && x == EventMap(init, es)[y] && t == ws[|es|](y)
  }

  ghost predicate Coordinate(init: Clauses, es: seq<Event>, run: seq<State>, ws: seq<Val>, x: Sym, t: Table)
  {
    && |run| == |Track(init, es).maps| + 1 && |ws| == |es| + 1
    && (PastCoordinate(Track(init, es).maps, run, x, t) || WitnessCoordinate(init, es, ws, x, t))
  }

  /** Past values and witnesses that share a name are equal. */
  ghost predicate Agreeing(init: Clauses, es: seq<Event>, run: seq<State>, ws: seq<Val>)
  {
    && |run| == |Track(init, es).maps| + 1 && |ws| == |es| + 1
    && forall x: Sym, t: Table, t': Table ::
         Coordinate(init, es, run, ws, x, t) && Coordinate(init, es, run, ws, x, t') ==> t == t'
  }

  lemma {:induction false} WitnessRead(init: Clauses, es: seq<Event>, ws: seq<Val>, v: Val, x: Sym, t: Table)
    requires |ws| == |es| + 1 && Recalls(init, es, ws, v) && WitnessCoordinate(init, es, ws, x, t)
    ensures v(x) == t
  {
    if es != [] && WitnessCoordinate(init, es[..|es| - 1], ws[..|es|], x, t) {
      WitnessRead(init, es[..|es| - 1], ws[..|es|], v, x, t);
    }
  }

  lemma CoordinateRead(init: Clauses, es: seq<Event>, run: seq<State>, ws: seq<Val>, v: Val, x: Sym, t: Table)
    requires Decodes(Track(init, es).maps, v, run) && Recalls(init, es, ws, v) && Coordinate(init, es, run, ws, x, t)
    ensures v(x) == t
  {
    hide Decodes, Recalls, WitnessCoordinate, NameAt, Track;
    var maps := Track(init, es).maps;
    if WitnessCoordinate(init, es, ws, x, t) {
      WitnessRead(init, es, ws, v, x, t);
    } else {
      var j: nat, i: Id :| j <= |maps| && x == NameAt(maps, j, i) && t == run[j](i);
      DecodedValue(maps, v, run, j, i);
    }
  }

  /** The valuation that gives every name its value. */
  ghost function Assembled(init: Clauses, es: seq<Event>, run: seq<State>, ws: seq<Val>): Val
  {
    (x: Sym) => ValueAt(init, es, run, ws, x)
  }

  ghost function ValueAt(init: Clauses, es: seq<Event>, run: seq<State>, ws: seq<Val>, x: Sym): Table
  {
    if t: Table :| Coordinate(init, es, run, ws, x, t) then t else Zero()
  }

  ghost predicate Gives(init: Clauses, es: seq<Event>, run: seq<State>, ws: seq<Val>, v: Val)
  {
    forall x: Sym, t: Table :: Coordinate(init, es, run, ws, x, t) ==> v(x) == t
  }

  lemma AssembledGives(init: Clauses, es: seq<Event>, run: seq<State>, ws: seq<Val>) returns (v: Val)
    requires Agreeing(init, es, run, ws)
    ensures Gives(init, es, run, ws, v)
  {
    hide Coordinate;
    v := Assembled(init, es, run, ws);
    forall x: Sym, t: Table | Coordinate(init, es, run, ws, x, t)
      ensures v(x) == t
    {
      assert v(x) == ValueAt(init, es, run, ws, x);
    }
  }

  lemma GivesDecodes(init: Clauses, es: seq<Event>, run: seq<State>, ws: seq<Val>, v: Val)
    requires Gives(init, es, run, ws, v) && |run| == |Track(init, es).maps| + 1 && |ws| == |es| + 1
    ensures Decodes(Track(init, es).maps, v, run)
  {
    hide WitnessCoordinate, Track, BackMap;
    var maps := Track(init, es).maps;
    forall j: nat, i: Id | j <= |maps|
      ensures StateAt(maps, j, v)(i) == run[j](i)
    {
      assert PastCoordinate(maps, run, NameAt(maps, j, i), run[j](i));
      assert Coordinate(init, es, run, ws, NameAt(maps, j, i), run[j](i));
    }
  }

  /** The valuation gives the witnesses their values. */
  ghost predicate GivesWitnesses(init: Clauses, es: seq<Event>, ws: seq<Val>, v: Val)
    requires |ws| == |es| + 1
  {
    forall x: Sym, t: Table :: WitnessCoordinate(init, es, ws, x, t) ==> v(x) == t
  }

  lemma {:induction false} GivesRecalls(init: Clauses, es: seq<Event>, ws: seq<Val>, v: Val)
    requires |ws| == |es| + 1 && GivesWitnesses(init, es, ws, v)
    ensures Recalls(init, es, ws, v)
  {
    hide EventMap;
    if es == [] {
      forall y | y in Used(init) && y.kind.Skolem?
        ensures v(y) == ws[0](y)
      {
        assert WitnessCoordinate(init, es, ws, y, ws[0](y));
      }
    } else {
      forall y | y in EventMap(init, es)
        ensures v(EventMap(init, es)[y]) == ws[|es|](y)
      {
        assert WitnessCoordinate(init, es, ws, EventMap(init, es)[y], ws[|es|](y));
      }
      var es', ws' := es[..|es| - 1], ws[..|es|];
      forall x: Sym, t: Table | WitnessCoordinate(init, es', ws', x, t)
        ensures v(x) == t
      {
        assert WitnessCoordinate(init, es, ws, x, t);
      }
      GivesRecalls(init, es', ws', v);
    }
  }

  lemma GivesAll(init: Clauses, es: seq<Event>, run: seq<State>, ws: seq<Val>, v: Val)
    requires Gives(init, es, run, ws, v) && |run| == |Track(init, es).maps| + 1 && |ws| == |es| + 1
    ensures GivesWitnesses(init, es, ws, v)
  {
    hide WitnessCoordinate, Track, PastCoordinate;
    forall x: Sym, t: Table | WitnessCoordinate(init, es, ws, x, t)
      ensures v(x) == t
    {
      assert Coordinate(init, es, run, ws, x, t);
    }
  }

  lemma ReadBackAgrees(init: Clauses, es: seq<Event>, run: seq<State>, v: Val) returns (ws: seq<Val>)
    requires StateClauses(init) && Events(es)
    requires Holds(Track(init, es).post, v) && Decodes(Track(init, es).maps, v, run)
    ensures Witnessed(init, es, run, ws) && Agreeing(init, es, run, ws)
  {
    hide Holds, Decodes, Witnessed, Coordinate, Track, StateClauses, Recalls, Recalled;
    ws := Recalled(init, es, v);
    RecalledRecalls(init, es, v);
    HistoryValues(init, es, run, ws, v);
    LastDecoded(Track(init, es).maps, v, run);
    forall x: Sym, t: Table | Coordinate(init, es, run, ws, x, t)
      ensures v(x) == t
    {
      CoordinateRead(init, es, run, ws, v, x, t);
    }
  }

  lemma AgreeingReadBack(init: Clauses, es: seq<Event>, run: seq<State>, ws: seq<Val>)
    requires StateClauses(init) && Events(es) && Witnessed(init, es, run, ws) && Agreeing(init, es, run, ws)
    ensures ReadBack(init, es, run)
  {
    hide Holds, Decodes, Witnessed, Coordinate, Track, StateClauses, Recalls, Gives, GivesWitnesses;
    var v := AssembledGives(init, es, run, ws);
    AgreeingLengths(init, es, run, ws);
    hide Agreeing;
    GivesDecodes(init, es, run, ws, v);
    GivesAll(init, es, run, ws, v);
    GivesRecalls(init, es, ws, v);
    HistoryValues(init, es, run, ws, v);
  }

  lemma AgreeingLengths(init: Clauses, es: seq<Event>, run: seq<State>, ws: seq<Val>)
    requires Agreeing(init, es, run, ws)
    ensures |run| == |Track(init, es).maps| + 1 && |ws| == |es| + 1
  {
    hide Coordinate, Track;
  }

  /** Exactly the runs with witnesses such that all past values and witnesses that share a name are equal are
      read back. */
  lemma HistoryReadBack(init: Clauses, es: seq<Event>, run: seq<State>)
    requires StateClauses(init) && Events(es)
    ensures ReadBack(init, es, run) <==>
            exists ws: seq<Val> :: Witnessed(init, es, run, ws) && Agreeing(init, es, run, ws)
  {
    hide Holds, Decodes, Witnessed, Agreeing, Track, StateClauses;
    if ReadBack(init, es, run) {
      var v: Val :| Holds(Track(init, es).post, v) && Decodes(Track(init, es).maps, v, run);
      var ws := ReadBackAgrees(init, es, run, v);
    }
    hide ReadBack;
    forall ws: seq<Val> | Witnessed(init, es, run, ws) && Agreeing(init, es, run, ws)
      ensures ReadBack(init, es, run)
    {
      AgreeingReadBack(init, es, run, ws);
    }
  }
}
