/**
 The calculus as it is computed: lists are gone through one element at a time, names are drawn from a
 renamer with a memory, and results are built up in maps.  Each procedure computes the function that the
 other modules reason about.
 */
module Procedures {
  import opened Names
  import opened Logic
  import opened ClauseOps
  import opened Updates
  import opened Hiding
  import opened Images
  import opened Actions
  import opened Atoms
  import opened Compiler
  import opened Histories

  // ----- lists of modified symbols -----

  method UpdatedJoinConst(u1: seq<Id>, u2: seq<Id>) returns (result: seq<Id>)
    ensures result == UpdatedJoin(u1, u2)
  {
    var seen: set<Id> := {};
    result := [];
    for i := 0 to |u1|
      invariant result == AddNew([], u1[..i]) && forall s :: s in seen <==> s in result
    {
      assert u1[..i + 1][..i] == u1[..i];
      if u1[i] !in seen {
        seen := seen + {u1[i]};
        result := result + [u1[i]];
      }
    }
    assert u1[..|u1|] == u1;
    ghost var first := result;
    for i := 0 to |u2|
      invariant result == AddNew(first, u2[..i]) && forall s :: s in seen <==> s in result
    {
      assert u2[..i + 1][..i] == u2[..i];
      if u2[i] !in seen {
        seen := seen + {u2[i]};
        result := result + [u2[i]];
      }
    }
    assert u2[..|u2|] == u2;
  }

  /** The elements of a that are in b, or that are not. */
  method Filter(a: seq<Id>, b: seq<Id>, keep: bool) returns (result: seq<Id>)
    ensures result == Select(a, b, keep)
  {
    var inB := set s | s in b;
    result := [];
    for i := 0 to |a|
      invariant result == Select(a[..i], b, keep)
    {
      assert a[..i + 1][..i] == a[..i];
      if (a[i] in inB) == keep {
        result := result + [a[i]];
      }
    }
    assert a[..|a|] == a;
  }

  method DiffFrameConst(updated1: seq<Id>, updated2: seq<Id>) returns (frame: Clauses)
    ensures frame == DiffFrame(updated1, updated2)
  {
    var missing := Filter(updated2, updated1, false);
    frame := FrameDefs(missing);
  }

  method FrameDefs(ids: seq<Id>) returns (frame: Clauses)
    ensures frame == Frames(ids)
  {
    frame := TOP;
    for i := 0 to |ids|
      invariant frame == Frames(ids[..i])
    {
      assert ids[..i + 1][..i] == ids[..i];
      frame := Both(frame, Copy(NewSym(ids[i]), BaseSym(ids[i])));
    }
    assert ids[..|ids|] == ids;
  }

  // ----- fresh names -----

  /** Gives every symbol of the list a new name, one after the other. */
  method RenameSymbols(prefix: string, syms: seq<Sym>, used: set<string>) returns (constMap: Renaming)
    ensures constMap == RenameAll(prefix, syms, used).m
  {
    var rn := new UniqueRenamer(prefix, used);
    constMap := map[];
    for i := 0 to |syms|
      invariant fresh(rn) && rn.prefix == prefix
      invariant RenameAll(prefix, syms[..i], used) == Renamer(constMap, rn.used)
    {
      assert syms[..i + 1][..i] == syms[..i];
      var name := rn.Rename(Spell(syms[i]));
      constMap := constMap[syms[i] := Sym(Skolem, Id(name, syms[i].id.arity))];
    }
    assert syms[..|syms|] == syms;
  }

  method RenameDistinctClauses(c1: Clauses, c2: Clauses) returns (r: Clauses)
    ensures r == RenameDistinct(c1, c2)
  {
    var ordered := OrderedUsed(c1);
    var skolems: seq<Sym> := [];
    for i := 0 to |ordered|
      invariant skolems == Skolems(ordered[..i])
    {
      assert ordered[..i + 1][..i] == ordered[..i];
      if ordered[i].kind.Skolem? && ordered[i] !in skolems {
        skolems := skolems + [ordered[i]];
      }
    }
    assert ordered[..|ordered|] == ordered;
    var constMap := RenameSymbols("", skolems, UsedNames(c2));
    OrderedUsedSyms(c1);
    r := Rename(c1, constMap);
  }

  // ----- composition, join, hiding -----

  method ComposeUpdates(u1: Update, u2: Update) returns (u: Update)
    ensures u == Compose(u1, u2)
  {
    hide And, Or, Rename, UpdatedJoin, DiffFrame, RenameAll, MidNew, MidBase, Select, Used, RenameDistinct, BaseSyms;
    var clauses2 := RenameDistinctClauses(u2.tr, u1.tr);
    var pre2 := RenameDistinctClauses(u2.pre, u1.tr);
    var mid := Filter(u1.mod, u2.mod, true);
    var allUsed := UsedNames(u1.tr) + UsedNames(clauses2) + UsedNames(u1.pre) + UsedNames(pre2);
    var map1, map2 := MidMaps(u1.mod, mid, allUsed);
    var clauses1 := Rename(u1.tr, map1);
    var newTr := And(clauses1, Rename(clauses2, map2));
    var newUpdated := UpdatedJoinConst(u1.mod, u2.mod);
    var frame := DiffFrameConst(u1.mod, u2.mod);
    var pre1 := And(u1.pre, frame);
    var temp := And(clauses1, Rename(pre2, map2));
    u := Update(newUpdated, newTr, Or(pre1, temp));
  }

  /** What becomes of the symbols of the first update and of the second: the values between the two get mid
      variables where both change them. */
  method MidMaps(updated1: seq<Id>, mid: seq<Id>, allUsed: set<string>) returns (map1: Renaming, map2: Renaming)
    requires forall i :: i in mid ==> i in updated1
    ensures var mm := RenameAll("__m_", BaseSyms(mid), allUsed).m;
            map1 == MidNew(updated1, mm) && map2 == MidBase(updated1, mm)
  {
    hide RenameAll, MidNew, MidBase, Fresh;
    var rn := new UniqueRenamer("__m_", allUsed);
    map1 := map[];
    map2 := PrimeMap(updated1);
    var mids := BaseSyms(mid);
    NoMids(updated1, mids[..0], allUsed);
    for i := 0 to |mid|
      invariant fresh(rn) && rn.prefix == "__m_"
      invariant RenameAll("__m_", mids[..i], allUsed).used == rn.used
      invariant var mm := RenameAll("__m_", mids[..i], allUsed).m;
                map1 == MidNew(updated1, mm) && map2 == MidBase(updated1, mm)
    {
      assert mid[i] in mid && mids[i] == BaseSym(mid[i]);
      MidsMore(updated1, mids, allUsed, i);
      var mv := mid[i];
      var mvfName := rn.Rename(mv.name);
      var mvf := Sym(Skolem, Id(mvfName, mv.arity));
      map1 := map1[NewSym(mv) := mvf];
      map2 := map2[BaseSym(mv) := mvf];
    }
    assert mids[..|mid|] == mids;
  }

  method PrimeMap(ids: seq<Id>) returns (m: Renaming)
    ensures m == Primes(ids)
  {
    m := map[];
    for i := 0 to |ids|
      invariant m == Primes(ids[..i])
    {
      PrimesMore(ids, i);
      m := m[BaseSym(ids[i]) := NewSym(ids[i])];
    }
    assert ids[..|ids|] == ids;
  }

  /** Every symbol of the list to its value after. */
  function Primes(ids: seq<Id>): Renaming
  {
    map i | i in ids :: BaseSym(i) := NewSym(i)
  }

  lemma PrimesMore(ids: seq<Id>, i: nat)
    requires i < |ids|
    ensures Primes(ids[..i + 1]) == Primes(ids[..i])[BaseSym(ids[i]) := NewSym(ids[i])]
  {
    assert ids[..i + 1] == ids[..i] + [ids[i]];
  }

  lemma NoMids(mod: seq<Id>, none: seq<Sym>, used: set<string>)
    requires none == []
    ensures RenameAll("__m_", none, used) == Renamer(map[], used)
    ensures MidNew(mod, map[]) == map[] && MidBase(mod, map[]) == Primes(mod)
  {
  }

  /** One more mid variable. */
  lemma MidsMore(mod: seq<Id>, mids: seq<Sym>, used: set<string>, i: nat)
    requires i < |mids| && mids[i].kind.Base? && mids[i].id in mod
    ensures var r := RenameAll("__m_", mids[..i], used);
            var x := mids[i];
            var name := Fresh("__m_", x.id.name, r.used);
            var y := Sym(Skolem, Id(name, x.id.arity));
            && RenameAll("__m_", mids[..i + 1], used) == Renamer(r.m[x := y], r.used + {name})
            && MidNew(mod, r.m[x := y]) == MidNew(mod, r.m)[NewSym(x.id) := y]
            && MidBase(mod, r.m[x := y]) == MidBase(mod, r.m)[x := y]
  {
    hide MidNew, MidBase, Fresh;
    assert mids[..i + 1][..i] == mids[..i];
    var r := RenameAll("__m_", mids[..i], used);
    var x := mids[i];
    var y := Sym(Skolem, Id(Fresh("__m_", x.id.name, r.used), x.id.arity));
    MidNewMore(mod, r.m, x, y);
    MidBaseMore(mod, r.m, x, y);
  }

  lemma MidNewMore(mod: seq<Id>, mm: Renaming, x: Sym, y: Sym)
    requires x.kind.Base? && x.id in mod
    ensures MidNew(mod, mm[x := y]) == MidNew(mod, mm)[NewSym(x.id) := y]
  {
    assert x == BaseSym(x.id);
    assert forall i: Id :: BaseSym(i) == x <==> i == x.id;
  }

  lemma MidBaseMore(mod: seq<Id>, mm: Renaming, x: Sym, y: Sym)
    requires x.kind.Base? && x.id in mod
    ensures MidBase(mod, mm[x := y]) == MidBase(mod, mm)[x := y]
  {
    assert x == BaseSym(x.id);
    assert forall i: Id :: BaseSym(i) == x <==> i == x.id;
  }

  method JoinUpdates(u1: Update, u2: Update) returns (u: Update)
    ensures u == Join(u1, u2)
  {
    var updated := UpdatedJoinConst(u1.mod, u2.mod);
    var d12 := DiffFrameConst(u1.mod, u2.mod);
    var d21 := DiffFrameConst(u2.mod, u1.mod);
    u := Update(updated, Or(And(u1.tr, d12), And(u2.tr, d21)), Or(And(u1.pre, d12), And(u2.pre, d21)));
  }

  method HideUpdate(inputSyms: seq<Id>, u: Update) returns (r: Update)
    ensures r == Hide(inputSyms, u)
  {
    var ids := UpdatedJoinConst([], inputSyms);
    var syms := BaseSyms(ids);
    var hiddenMod := Filter(u.mod, inputSyms, true);
    var hiddenNew := UpdatedJoinConst([], hiddenMod);
    syms := syms + NewSyms(hiddenNew);
    var newMod := Filter(u.mod, inputSyms, false);
    var trMap := RenameSymbols("__", syms, UsedNames(u.tr));
    var preMap := RenameSymbols("__", syms, UsedNames(u.pre));
    r := Update(newMod, Rename(u.tr, trMap), Rename(u.pre, preMap));
  }

  method ForwardImageMap(preState: Clauses, u: Update) returns (eqMap: Renaming, result: Clauses)
    ensures eqMap == PastMap(preState, u) && result == ForwardImage(preState, u)
  {
    hide And, Rename, RenameAll, Unprime, Used, RenameDistinct, BaseSyms;
    var tr := RenameDistinctClauses(u.tr, preState);
    var combined := And(preState, tr);
    eqMap := RenameSymbols("__", BaseSyms(u.mod), UsedNames(combined));
    var quantified := Rename(combined, eqMap);
    var renaming := UnprimeMap(u.mod);
    result := Rename(quantified, renaming);
  }

  method UnprimeMap(ids: seq<Id>) returns (m: Renaming)
    ensures m == Unprime(ids)
  {
    m := map[];
    for i := 0 to |ids|
      invariant m == Unprime(ids[..i])
    {
      UnprimeMore(ids, i);
      m := m[NewSym(ids[i]) := BaseSym(ids[i])];
    }
    assert ids[..|ids|] == ids;
  }

  lemma UnprimeMore(ids: seq<Id>, i: nat)
    requires i < |ids|
    ensures Unprime(ids[..i + 1]) == Unprime(ids[..i])[NewSym(ids[i]) := BaseSym(ids[i])]
  {
    assert ids[..i + 1] == ids[..i] + [ids[i]];
  }

  method ActionComposeMaps(m1: Renaming, m2: Renaming) returns (result: Renaming)
    ensures result == ComposeMaps(m1, m2)
  {
    result := m2;
    var keys := m1.Keys;
    ghost var done: set<Sym> := {};
    while keys != {}
      invariant done <= m1.Keys && keys == m1.Keys - done
      invariant result == Followed(m1, m2, done)
      decreases |keys|
    {
      var k :| k in keys;
      FollowedMore(m1, m2, done, k);
      var to := m1[k];
      if to in m2 {
        result := result[k := m2[to]];
      } else {
        result := result[k := to];
      }
      keys := keys - {k};
      done := done + {k};
    }
    assert done == m1.Keys;
    FollowedAll(m1, m2);
  }

  /** m2 with some entries of m1, their targets followed through m2. */
  function Followed(m1: Renaming, m2: Renaming, done: set<Sym>): Renaming
  {
    m2 + map x | x in done && x in m1 :: Lookup(m2, m1[x])
  }

  lemma FollowedMore(m1: Renaming, m2: Renaming, done: set<Sym>, k: Sym)
    requires k in m1
    ensures Followed(m1, m2, done + {k}) == Followed(m1, m2, done)[k := Lookup(m2, m1[k])]
  {
  }

  lemma FollowedAll(m1: Renaming, m2: Renaming)
    ensures Followed(m1, m2, m1.Keys) == ComposeMaps(m1, m2)
  {
  }

  // ----- sequences and choices -----

  method SequenceUpdate(elems: seq<Action>) returns (result: Update)
    requires forall e :: e in elems ==> Core(e)
    ensures result == ComposeAll(elems)
  {
    hide Compose, IntUpdate, Core;
    result := NullUpdate();
    for i := 0 to |elems|
      invariant result == ComposeAll(elems[..i])
    {
      assert elems[..i + 1][..i] == elems[..i];
      assert elems[i] in elems;
      result := ComposeUpdates(result, IntUpdate(elems[i]));
    }
    assert elems[..|elems|] == elems;
  }

  method ChoiceUpdate(branches: seq<Action>) returns (result: Update)
    requires forall b :: b in branches ==> Core(b)
    ensures result == JoinAll(branches)
  {
    hide Join, IntUpdate, Core;
    result := Update([], BOT, BOT);
    for i := 0 to |branches|
      invariant result == JoinAll(branches[..i])
    {
      assert branches[..i + 1][..i] == branches[..i];
      assert branches[i] in branches;
      result := JoinUpdates(result, IntUpdate(branches[i]));
    }
    assert branches[..|branches|] == branches;
  }
}
