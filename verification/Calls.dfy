/**
 Calls by inlining: formals are renamed away from the symbols of the actuals, bound by assignments,
 and hidden; old_ symbols of the callee are bound to its entry.  The result is call by value-result.
 */
module Calls {
  import opened Options
  import opened Names
  import opened Logic
  import opened ClauseOps
  import opened Updates
  import opened Hiding
  import opened Substitution
  import opened Actions
  import opened Equivariance
  import opened Runs

  type IdMap = map<Id, Id>

  // ----- renaming symbols of an action -----

  /** The substitution that renames the symbols and their old_ versions. */
  function Renamed(m: IdMap): Renaming
  {
    (map i | i in m :: BaseSym(i) := BaseSym(m[i])) + (map i | i in m :: OldSym(i) := OldSym(m[i]))
  }

  function IdOf(m: IdMap, i: Id): Id
  {
    if i in m then m[i] else i
  }

  function IdsOf(m: IdMap, ids: seq<Id>): (r: seq<Id>)
    ensures |r| == |ids| && forall k :: 0 <= k < |ids| ==> r[k] == IdOf(m, ids[k])
  {
    seq(|ids|, k requires 0 <= k < |ids| => IdOf(m, ids[k]))
  }

  function TargetOf(m: IdMap, target: Target): Target
  {
    Target(IdOf(m, target.x), RenameExprs(target.args, Renamed(m)))
  }

  function TargetsOf(m: IdMap, outs: seq<Target>): (r: seq<Target>)
    ensures |r| == |outs| && forall k :: 0 <= k < |outs| ==> r[k] == TargetOf(m, outs[k])
  {
    seq(|outs|, k requires 0 <= k < |outs| => TargetOf(m, outs[k]))
  }

  /** Renames symbols in an action.  A nested call refers to its callee by name, so the callee and its
      formals stay as they are. */
  function RenameAction(a: Action, m: IdMap): Action
    decreases a, 1
  {
    match a
    case Assume(f) => Assume(RenameExpr(f, Renamed(m)))
    case Assert(f) => Assert(RenameExpr(f, Renamed(m)))
    case Assign(target, rhs) => Assign(TargetOf(m, target), RenameExpr(rhs, Renamed(m)))
    case Havoc(target) => Havoc(TargetOf(m, target))
    case Sequence(es) => Sequence(RenameActions(es, m))
    case Choice(bs) => Choice(RenameActions(bs, m))
    case If(c, thn, els) => If(RenameExpr(c, Renamed(m)), RenameAction(thn, m), RenameAction(els, m))
    case Local(ids, body) => Local(IdsOf(m, ids), RenameAction(body, m))
    case BindOldsAction(inner) => BindOldsAction(RenameAction(inner, m))
    case While(c, invs, rank, body) =>
      While(RenameExpr(c, Renamed(m)), RenameExprs(invs, Renamed(m)),
            if rank.Some? then Some(RenameExpr(rank.value, Renamed(m))) else None, RenameAction(body, m))
    case IfSome(some, thn, els) =>
      IfSome(SomeCond(IdsOf(m, some.params), RenameExpr(some.f, Renamed(m)), some.optimum,
                      RenameExpr(some.index, Renamed(m))),
             RenameAction(thn, m), RenameAction(els, m))
    case Call(params, results, callee, actuals, outs) =>
      Call(params, results, callee, RenameExprs(actuals, Renamed(m)), TargetsOf(m, outs))
  }

  function RenameActions(es: seq<Action>, m: IdMap): (r: seq<Action>)
    ensures |r| == |es| && forall k :: 0 <= k < |es| ==> r[k] == RenameAction(es[k], m)
    decreases es, 0
  {
    if es == [] then [] else RenameActions(es[..|es| - 1], m) + [RenameAction(es[|es| - 1], m)]
  }

  predicate StateExprs(es: seq<Expr>)
  {
    forall e :: e in es ==> StateExpr(e)
  }

  /** A symbol of the state that is not in xs. */
  predicate Reads(e: Expr, xs: set<Id>)
  {
    StateExpr(e) && ExprAvoids(e, xs, xs)
  }

  predicate ReadsAll(es: seq<Expr>, xs: set<Id>)
  {
    forall e :: e in es ==> Reads(e, xs)
  }

  predicate IdsAvoid(ids: seq<Id>, xs: set<Id>)
  {
    forall i :: i in ids ==> i !in xs
  }

  predicate TargetReads(target: Target, xs: set<Id>)
  {
    target.x !in xs && ReadsAll(target.args, xs)
  }

  /** The action itself uses symbols of the state and none of xs; and nested callees mention none of moved
      but their own formals and locals. */
  predicate Renamable(a: Action, xs: set<Id>, moved: set<Id>)
  {
    match a
    case Assume(f) => Reads(f, xs)
    case Assert(f) => Reads(f, xs)
    case Assign(target, rhs) => TargetReads(target, xs) && Reads(rhs, xs)
    case Havoc(target) => TargetReads(target, xs)
    case Sequence(es) => forall e :: e in es ==> Renamable(e, xs, moved)
    case Choice(bs) => forall b :: b in bs ==> Renamable(b, xs, moved)
    case If(c, thn, els) => Reads(c, xs) && Renamable(thn, xs, moved) && Renamable(els, xs, moved)
    case Local(ids, body) => IdsAvoid(ids, xs) && Renamable(body, xs, moved)
    case BindOldsAction(inner) => Renamable(inner, xs, moved)
    case While(c, invs, rank, body) =>
      && Reads(c, xs) && ReadsAll(invs, xs) && (rank.Some? ==> Reads(rank.value, xs))
      && Renamable(body, xs, moved)
    case IfSome(some, thn, els) =>
      && IdsAvoid(some.params, xs) && Reads(some.f, xs) && Reads(some.index, xs)
      && Renamable(thn, xs, moved) && Renamable(els, xs, moved)
    case Call(params, results, callee, actuals, outs) =>
      && CalleeAvoids(params + results, callee, moved)
      && ReadsAll(actuals, xs) && forall k :: 0 <= k < |outs| ==> TargetReads(outs[k], xs)
  }

  lemma OthersSame(xs: set<Id>, ids: seq<Id>)
    requires IdsAvoid(ids, xs)
    ensures Others(xs, ids) == xs
  {
  }

  lemma {:induction false} RenamableAvoids(a: Action, xs: set<Id>, moved: set<Id>)
    requires Renamable(a, xs, moved)
    ensures ActionAvoids(a, moved, xs, xs)
    decreases a
  {
    hide StateExpr, ExprAvoids, CalleeAvoids, Others;
    match a
    case Sequence(es) => forall e | e in es ensures ActionAvoids(e, moved, xs, xs) { RenamableAvoids(e, xs, moved); }
    case Choice(bs) => forall b | b in bs ensures ActionAvoids(b, moved, xs, xs) { RenamableAvoids(b, xs, moved); }
    case If(_, thn, els) => RenamableAvoids(thn, xs, moved); RenamableAvoids(els, xs, moved);
    case Local(ids, body) => RenamableAvoids(body, xs, moved); OthersSame(xs, ids);
    case BindOldsAction(inner) => RenamableAvoids(inner, xs, moved);
    case While(_, _, _, body) => RenamableAvoids(body, xs, moved);
    case IfSome(some, thn, els) =>
      RenamableAvoids(thn, xs, moved); RenamableAvoids(els, xs, moved); OthersSame(xs, some.params);
    case _ =>
  }

  // ----- distinct names for the formals -----

  datatype Formals = Formals(m: IdMap, used: set<string>)

  /** Formals keep their names unless the actuals or earlier formals use them. */
  function DistinctObjRenaming(formals: seq<Id>, used: set<string>): (r: Formals)
    ensures r.m.Keys == set f | f in formals
    ensures used <= r.used && forall f :: f in r.m ==> r.m[f].name in r.used && r.m[f].name !in used
    ensures forall f, g :: f in r.m && g in r.m && r.m[f].name == r.m[g].name ==> f == g
  {
    if formals == [] then Formals(map[], used) else
    var f := formals[|formals| - 1];
    var r := DistinctObjRenaming(formals[..|formals| - 1], used);
    assert formals == formals[..|formals| - 1] + [f];
    var name := if f.name !in r.used then f.name else FirstUnused(f.name, r.used, 0);
    Formals(r.m[f := Id(name, f.arity)], r.used + {name})
  }

  method ComputeRenaming(formals: seq<Id>, vocab: set<string>) returns (m: IdMap)
    ensures m == DistinctObjRenaming(formals, vocab).m
  {
    m := map[];
    var used := vocab;
    for i := 0 to |formals|
      invariant DistinctObjRenaming(formals[..i], vocab) == Formals(m, used)
    {
      var f := formals[i];
      assert formals[..i + 1][..i] == formals[..i];
      var name := f.name;
      if name in used {
        name := UnusedNameWithBase(f.name, used);
      }
      used := used + {name};
      m := m[f := Id(name, f.arity)];
    }
    assert formals[..|formals|] == formals;
  }

  /** Formals keep their names when nothing clashes. */
  lemma {:induction false} RenamingIdentity(formals: seq<Id>, used: set<string>)
    requires forall i :: 0 <= i < |formals| ==> formals[i].name !in used
    requires forall i, j :: 0 <= i < j < |formals| ==> formals[i].name != formals[j].name
    ensures forall f :: f in formals ==> DistinctObjRenaming(formals, used).m[f] == f
    ensures DistinctObjRenaming(formals, used).used == used + set f | f in formals :: f.name
  {
    if formals != [] {
      var n := |formals| - 1;
      RenamingIdentity(formals[..n], used);
      assert formals == formals[..n] + [formals[n]];
    }
  }

  // ----- the inlined call -----

  function ArgNames(es: seq<Expr>): set<string>
  {
    set x | x in SymsAll(es) :: Spell(x)
  }

  function TargetNames(outs: seq<Target>): set<string>
  {
    if outs == [] then {} else
    var n := |outs| - 1;
    TargetNames(outs[..n]) + {outs[n].x.name} + ArgNames(outs[n].args)
  }

  function CallRenaming(params: seq<Id>, results: seq<Id>, actuals: seq<Expr>, outs: seq<Target>): IdMap
  {
    DistinctObjRenaming(params + results, ArgNames(actuals) + TargetNames(outs)).m
  }

  function Ins(params: seq<Id>, actuals: seq<Expr>): (r: seq<Action>)
    requires |params| == |actuals|
    ensures |r| == |params| && forall k :: 0 <= k < |params| ==> r[k] == Assign(Target(params[k], []), actuals[k])
  {
    seq(|params|, k requires 0 <= k < |params| => Assign(Target(params[k], []), actuals[k]))
  }

  function Outs(outs: seq<Target>, results: seq<Id>): (r: seq<Action>)
    requires |results| == |outs|
    ensures |r| == |outs| && forall k :: 0 <= k < |outs| ==> r[k] == Assign(outs[k], App(BaseSym(results[k]), []))
  {
    seq(|outs|, k requires 0 <= k < |outs| => Assign(outs[k], App(BaseSym(results[k]), [])))
  }

  /** The call without a call; none when the numbers of arguments do not match. */
  function ApplyActuals(params: seq<Id>, results: seq<Id>, callee: Action, actuals: seq<Expr>, outs: seq<Target>):
    Option<Action>
  {
    var m := CallRenaming(params, results, actuals, outs);
    if |params| != |actuals| || |results| != |outs| then None else
    Some(Local(IdsOf(m, params) + IdsOf(m, results),
               Sequence([Sequence(Ins(IdsOf(m, params), actuals)),
                         BindOldsAction(RenameAction(callee, m)),
                         Sequence(Outs(outs, IdsOf(m, results)))])))
  }

  /** The new names of renamed formals. */
  function Introduced(m: IdMap): set<Id>
  {
    m.Values - m.Keys
  }

  predicate NoRepeat(ids: seq<Id>)
  {
    forall i, j :: 0 <= i < j < |ids| ==> ids[i] != ids[j]
  }

  predicate StateTargets(outs: seq<Target>)
  {
    forall k :: 0 <= k < |outs| ==> StateExprs(outs[k].args)
  }

  /** The formals that get new names, and these names. */
  function Moved(m: IdMap): set<Id>
  {
    (set f | f in m && m[f] != f) + (set f | f in m && m[f] != f :: m[f])
  }

  /** The callee does not use the new names of its formals; where a formal is renamed, nested callees mention
      neither it nor its new name but as formals or locals of their own; and no parameter is repeated. */
  predicate Callable(params: seq<Id>, results: seq<Id>, callee: Action, actuals: seq<Expr>, outs: seq<Target>)
  {
    var m := CallRenaming(params, results, actuals, outs);
    && StateExprs(actuals) && StateTargets(outs) && NoRepeat(params)
    && Renamable(callee, Introduced(m), Moved(m))
  }

  /** With formals of their own names, any callee will do, whatever its nested calls use. */
  lemma CallablePlainly(params: seq<Id>, results: seq<Id>, callee: Action, actuals: seq<Expr>, outs: seq<Target>)
    requires StateExprs(actuals) && StateTargets(outs) && NoRepeat(params) && Renamable(callee, {}, {})
    requires var fs := params + results;
             && (forall i :: 0 <= i < |fs| ==> fs[i].name !in ArgNames(actuals) + TargetNames(outs))
             && (forall i, j :: 0 <= i < j < |fs| ==> fs[i].name != fs[j].name)
    ensures Callable(params, results, callee, actuals, outs)
  {
    hide Renamable;
    RenamingIdentity(params + results, ArgNames(actuals) + TargetNames(outs));
    var m := CallRenaming(params, results, actuals, outs);
    assert forall f :: f in m ==> m[f] == f;
    assert Introduced(m) == {} && Moved(m) == {};
  }

  // ----- the renaming as a permutation -----

  function Swapped(i: Id, j: Id, k: Id): Id
  {
    if k == i then j else if k == j then i else k
  }

  ghost function Swap(p: Perm, i: Id, j: Id): Perm
  {
    Perm((k: Id) => Swapped(i, j, p.to(k)), (k: Id) => p.from(Swapped(i, j, k)))
  }

  ghost predicate InjectiveIds(m: IdMap)
  {
    forall f, g :: f in m && g in m && m[f] == m[g] ==> f == g
  }

  /** A permutation that does what the renaming does and moves nothing else. */
  lemma {:induction false} Permutation(fs: seq<Id>, m: IdMap) returns (p: Perm)
    requires InjectiveIds(m) && forall f :: f in fs ==> f in m
    ensures Bijective(p)
    ensures forall f :: f in fs ==> p.to(f) == m[f]
    ensures forall i :: i !in fs && i !in m.Values ==> p.to(i) == i
  {
    if fs == [] {
      p := Plainly();
    } else {
      var n := |fs| - 1;
      var f := fs[n];
      var q := Permutation(fs[..n], m);
      p := SwapMeaning(q, q.to(f), m[f]);
      assert fs == fs[..n] + [f];
      forall g | g in fs
        ensures p.to(g) == m[g]
      {
        if g != f { Distinct(q, g, f); }
      }
      forall i | i !in fs && i !in m.Values
        ensures p.to(i) == i
      {
        Distinct(q, i, f);
      }
    }
  }

  lemma Distinct(p: Perm, i: Id, j: Id)
    requires Bijective(p) && i != j
    ensures p.to(i) != p.to(j)
  {
    assert p.from(p.to(i)) == i && p.from(p.to(j)) == j;
  }

  lemma SwapMeaning(q: Perm, i: Id, j: Id) returns (p: Perm)
    requires Bijective(q)
    ensures Bijective(p) && forall k: Id :: p.to(k) == Swapped(i, j, q.to(k))
  {
    p := Swap(q, i, j);
    forall k: Id
      ensures p.from(p.to(k)) == k && p.to(p.from(k)) == k
      ensures p.to(k) == Swapped(i, j, q.to(k))
    {
      assert Swapped(i, j, Swapped(i, j, k)) == k;
      assert Swapped(i, j, Swapped(i, j, q.to(k))) == q.to(k);
    }
  }

  // ----- renaming is permuting -----

  /** The permutation and the renaming agree on the symbols that are not in xs. */
  ghost predicate Follows(p: Perm, m: IdMap, xs: set<Id>)
  {
    forall i: Id :: i !in xs ==> p.to(i) == IdOf(m, i)
  }

  lemma {:induction false} RenameExprIs(e: Expr, p: Perm, m: IdMap, xs: set<Id>)
    requires Follows(p, m, xs) && Reads(e, xs)
    ensures RenameExpr(e, Renamed(m)) == PermExpr(e, p)
    decreases e, 1
  {
    match e
    case Var(_) =>
    case Lit(_) =>
    case App(f, args) => RenameArgsAre(args, p, m, xs); LookupRenamed(m, f); assert f in Syms(e);
    case Not(a) => RenameExprIs(a, p, m, xs);
    case Op(_, l, r) => RenameExprIs(l, p, m, xs); RenameExprIs(r, p, m, xs);
    case Ite(c, t, f) => RenameExprIs(c, p, m, xs); RenameExprIs(t, p, m, xs); RenameExprIs(f, p, m, xs);
    case Quant(_, _, b) => RenameExprIs(b, p, m, xs);
  }

  lemma LookupRenamed(m: IdMap, x: Sym)
    requires x.kind.Base? || x.kind.Old?
    ensures Lookup(Renamed(m), x) == Sym(x.kind, IdOf(m, x.id))
  {
    assert x == BaseSym(x.id) || x == OldSym(x.id);
  }

  lemma {:induction false} RenameArgsAre(es: seq<Expr>, p: Perm, m: IdMap, xs: set<Id>)
    requires Follows(p, m, xs)
    requires forall x :: x in SymsAll(es) ==> x.id !in xs && (x.kind.Base? || x.kind.Old?)
    ensures RenameExprs(es, Renamed(m)) == PermExprs(es, p)
    decreases es, 0
  {
    if es != [] {
      RenameArgsAre(es[..|es| - 1], p, m, xs);
      RenameExprIs(es[|es| - 1], p, m, xs);
    }
  }

  lemma {:induction false} AllSyms(es: seq<Expr>, x: Sym)
    requires x in SymsAll(es)
    ensures exists e :: e in es && x in Syms(e)
  {
    if x !in Syms(es[|es| - 1]) {
      AllSyms(es[..|es| - 1], x);
      var e :| e in es[..|es| - 1] && x in Syms(e);
      assert e in es;
    }
  }

  lemma RenameExprsAre(es: seq<Expr>, p: Perm, m: IdMap, xs: set<Id>)
    requires Follows(p, m, xs) && ReadsAll(es, xs)
    ensures RenameExprs(es, Renamed(m)) == PermExprs(es, p)
  {
    forall x | x in SymsAll(es)
      ensures x.id !in xs && (x.kind.Base? || x.kind.Old?)
    {
      AllSyms(es, x);
    }
    RenameArgsAre(es, p, m, xs);
  }

  lemma RenameIdsAre(ids: seq<Id>, p: Perm, m: IdMap, xs: set<Id>)
    requires Follows(p, m, xs) && IdsAvoid(ids, xs)
    ensures IdsOf(m, ids) == PermIds(ids, p)
  {
    assert forall k :: 0 <= k < |ids| ==> ids[k] in ids;
  }

  lemma RenameTargetIs(target: Target, p: Perm, m: IdMap, xs: set<Id>)
    requires Follows(p, m, xs) && TargetReads(target, xs)
    ensures TargetOf(m, target) == PermTarget(target, p)
  {
    RenameExprsAre(target.args, p, m, xs);
  }

  lemma RenameTargetsAre(outs: seq<Target>, p: Perm, m: IdMap, xs: set<Id>)
    requires Follows(p, m, xs)
    requires forall k :: 0 <= k < |outs| ==> TargetReads(outs[k], xs)
    ensures TargetsOf(m, outs) == PermTargets(outs, p)
  {
    forall k | 0 <= k < |outs|
      ensures TargetsOf(m, outs)[k] == PermTargets(outs, p)[k]
    {
      RenameTargetIs(outs[k], p, m, xs);
    }
  }

  /** The renamed action is the permuted one, if it does not use the new names. */
  lemma {:induction false} RenameActionIs(a: Action, p: Perm, m: IdMap, xs: set<Id>, moved: set<Id>)
    requires Follows(p, m, xs) && Renamable(a, xs, moved)
    ensures RenameAction(a, m) == Permute(a, p)
    decreases a, 1
  {
    hide Follows, RenameExpr, PermExpr, PermTarget, TargetOf, Reads, TargetReads, CalleeAvoids;
    match a
    case Assume(f) => RenameExprIs(f, p, m, xs);
    case Assert(f) => RenameExprIs(f, p, m, xs);
    case Assign(target, rhs) => RenameTargetIs(target, p, m, xs); RenameExprIs(rhs, p, m, xs);
    case Havoc(target) => RenameTargetIs(target, p, m, xs);
    case Sequence(es) => RenameActionsAre(es, p, m, xs, moved);
    case Choice(bs) => RenameActionsAre(bs, p, m, xs, moved);
    case If(c, thn, els) =>
      RenameExprIs(c, p, m, xs); RenameActionIs(thn, p, m, xs, moved); RenameActionIs(els, p, m, xs, moved);
    case Local(ids, body) => RenameIdsAre(ids, p, m, xs); RenameActionIs(body, p, m, xs, moved);
    case BindOldsAction(inner) => RenameActionIs(inner, p, m, xs, moved);
    case While(_, _, _, body) => RenameActionIs(body, p, m, xs, moved); RenameWhileIs(a, p, m, xs, moved);
    case IfSome(_, thn, els) =>
      RenameActionIs(thn, p, m, xs, moved);
      RenameActionIs(els, p, m, xs, moved);
      RenameSomeIs(a, p, m, xs, moved);
    case Call(params, results, callee, actuals, outs) =>
      RenameExprsAre(actuals, p, m, xs);
      RenameTargetsAre(outs, p, m, xs);
  }

  lemma RenameWhileIs(a: Action, p: Perm, m: IdMap, xs: set<Id>, moved: set<Id>)
    requires a.While? && Follows(p, m, xs) && Renamable(a, xs, moved)
    requires RenameAction(a.body, m) == Permute(a.body, p)
    ensures RenameAction(a, m) == Permute(a, p)
  {
    hide Follows, RenameExpr, PermExpr, Reads;
    RenameExprIs(a.cond, p, m, xs);
    RenameExprsAre(a.invariants, p, m, xs);
    if a.rank.Some? { RenameExprIs(a.rank.value, p, m, xs); }
  }

  lemma RenameSomeIs(a: Action, p: Perm, m: IdMap, xs: set<Id>, moved: set<Id>)
    requires a.IfSome? && Follows(p, m, xs) && Renamable(a, xs, moved)
    requires RenameAction(a.thn, m) == Permute(a.thn, p) && RenameAction(a.els, m) == Permute(a.els, p)
    ensures RenameAction(a, m) == Permute(a, p)
  {
    hide Follows, RenameExpr, PermExpr, Reads;
    RenameIdsAre(a.some.params, p, m, xs);
    RenameExprIs(a.some.f, p, m, xs);
    RenameExprIs(a.some.index, p, m, xs);
  }

  lemma {:induction false} RenameActionsAre(es: seq<Action>, p: Perm, m: IdMap, xs: set<Id>, moved: set<Id>)
    requires Follows(p, m, xs) && forall e :: e in es ==> Renamable(e, xs, moved)
    ensures RenameActions(es, m) == PermuteAll(es, p)
    decreases es, 0
  {
    hide Follows, RenameAction, Permute, Renamable;
    forall k | 0 <= k < |es|
      ensures RenameActions(es, m)[k] == PermuteAll(es, p)[k]
    {
      assert es[k] in es;
      RenameActionIs(es[k], p, m, xs, moved);
    }
  }

  // ----- storing arguments and results -----

  /** The caller sees its own values of the formals, and otherwise what the inlined call computes. */
  ghost predicate Seen(fs: seq<Id>, s: State, r: State, x: State)
  {
    SameOff(fs, r, x) && SameOn(fs, r, s)
  }

  /** The expression mentions none of the formals by name. */
  predicate ClearOf(e: Expr, fs: seq<Id>)
  {
    StateExpr(e) && forall y :: y in Syms(e) && y.kind.Base? ==> y.id !in fs
  }

  lemma EvalSeen(e: Expr, fs: seq<Id>, o: State, r: State, x: State, env: Env)
    requires ClearOf(e, fs) && SameOff(fs, r, x)
    ensures Eval(e, Now(o, r), env) == Eval(e, Now(o, x), env)
  {
    EvalCoincide(e, Now(o, r), Now(o, x), env);
  }

  predicate AllClear(actuals: seq<Expr>, outs: seq<Target>, fs: seq<Id>)
  {
    && AllClearOf(actuals, fs)
    && (forall k :: 0 <= k < |outs| ==> TargetClear(outs[k], fs))
  }

  predicate TargetClear(target: Target, fs: seq<Id>)
  {
    target.x !in fs && forall e :: e in target.args ==> ClearOf(e, fs)
  }

  lemma AddressedSeen(args: seq<Expr>, fs: seq<Id>, o: State, r: State, x: State, a: seq<int>)
    requires |a| == |args| && (forall e :: e in args ==> ClearOf(e, fs)) && SameOff(fs, r, x)
    ensures Addressed(args, Now(o, r), a) <==> Addressed(args, Now(o, x), a)
  {
    forall k | 0 <= k < |args|
      ensures Eval(args[k], Now(o, r), map[]) == Eval(args[k], Now(o, x), map[])
    {
      EvalSeen(args[k], fs, o, r, x, map[]);
    }
  }

  /** One result stored, in the caller's view and inlined. */
  lemma StoreSeen(target: Target, f: Id, fs: seq<Id>, s: State, o: State, r: State, x: State, t: State, y: State)
    requires TargetClear(target, fs) && f in fs && Seen(fs, s, r, x) && Seen(fs, s, t, y) && SameOn(fs, x, y)
    ensures Assigned(target, Lit(x(f)([])), o, r, t) <==> Assigned(target, App(BaseSym(f), []), o, x, y)
  {
    forall a: seq<int> | |a| == |target.args|
      ensures Addressed(target.args, Now(o, r), a) <==> Addressed(target.args, Now(o, x), a)
      ensures Eval(Lit(x(f)([])), Now(o, r), IndexEnv(target.args, a)) ==
              Eval(App(BaseSym(f), []), Now(o, x), IndexEnv(target.args, a))
    {
      AddressedSeen(target.args, fs, o, r, x, a);
    }
    assert r(target.x) == x(target.x) && t(target.x) == y(target.x);
    forall i: Id | i != target.x
      ensures t(i) == r(i) <==> y(i) == x(i)
    {
    }
  }

  /** The values returned are found in the renamed return symbols. */
  ghost predicate Carried(results: seq<Id>, x0: State, fresh': seq<Id>, x: State)
    requires |results| == |fresh'|
  {
    forall k :: 0 <= k < |results| ==> x0(results[k])([]) == x(fresh'[k])([])
  }

  predicate Among(xs: seq<Id>, fs: seq<Id>)
  {
    forall k :: 0 <= k < |xs| ==> xs[k] in fs
  }

  lemma MakeSeen(fs: seq<Id>, s: State, y: State) returns (t: State)
    ensures Seen(fs, s, t, y)
  {
    t := Mixed(fs, s, y);
  }

  lemma MakeInner(fs: seq<Id>, s: State, x: State, t: State) returns (y: State)
    requires SameOn(fs, t, s)
    ensures Seen(fs, s, t, y) && SameOn(fs, x, y)
  {
    y := Mixed(fs, x, t);
  }

  lemma {:induction false} DeliverInlined(outs: seq<Target>, results: seq<Id>, fresh': seq<Id>, fs: seq<Id>, x0: State,
                                          s: State, o: State, r: State, x: State, t: State, y: State)
    requires |outs| == |results| == |fresh'| && Among(fresh', fs)
    requires forall k :: 0 <= k < |outs| ==> TargetClear(outs[k], fs)
    requires Carried(results, x0, fresh', x)
    requires Seen(fs, s, r, x) && Seen(fs, s, t, y) && SameOn(fs, x, y)
    requires Delivered(outs, results, x0, o, r, t)
    ensures ExecSeq(Outs(outs, fresh'), o, x, y)
  {
    hide Assigned, Delivered, Exec, ExecSeq, Seen, SameOn, TargetClear, Among, Carried;
    if outs == [] {
      DeliveredNone(results, x0, o, r, t);
      SeenSame(fs, s, r, x, t, y);
      NothingRun(o, x, y);
      assert fresh' == [];
    } else {
      var n := |outs| - 1;
      var m := DeliveredLast(outs, results, x0, o, r, t);
      SeenKept(outs[..n], results[..n], fs, x0, s, o, r, m) by { ClearTargets(outs, fs); SeenOn(fs, s, r, x); }
      var z := MakeInner(fs, s, x, m);
      AmongLast(fresh', fs);
      CarriedLast(results, x0, fresh', fs, x, z);
      DeliverInlined(outs[..n], results[..n], fresh'[..n], fs, x0, s, o, r, x, m, z);
      SameOnOver(fs, x, z, y);
      StoreSeen(outs[n], fresh'[n], fs, s, o, m, z, t, y);
      var last := Assign(outs[n], App(BaseSym(fresh'[n]), []));
      AssignIs(outs[n], App(BaseSym(fresh'[n]), []), o, z, y);
      ExecSnoc(Outs(outs[..n], fresh'[..n]), last, o, x, z, y);
      assert Outs(outs, fresh') == Outs(outs[..n], fresh'[..n]) + [last];
    }
  }

  lemma NothingRun(o: State, x: State, y: State)
    requires Same(x, y)
    ensures ExecSeq([], o, x, y)
  {
  }

  lemma ClearTargets(outs: seq<Target>, fs: seq<Id>)
    requires forall k :: 0 <= k < |outs| ==> TargetClear(outs[k], fs)
    ensures forall k :: 0 <= k < |outs| ==> outs[k].x !in fs
  {
    hide ClearOf;
  }

  lemma SeenOn(fs: seq<Id>, s: State, r: State, x: State)
    requires Seen(fs, s, r, x)
    ensures SameOn(fs, r, s)
  {
  }

  lemma AssignIs(target: Target, rhs: Expr, o: State, s: State, t: State)
    ensures Exec(Assign(target, rhs), o, s, t) <==> Assigned(target, rhs, o, s, t)
  {
    hide Assigned;
  }

  lemma SeenSame(fs: seq<Id>, s: State, r: State, x: State, t: State, y: State)
    requires Seen(fs, s, r, x) && Seen(fs, s, t, y) && SameOn(fs, x, y) && Same(r, t)
    ensures Same(x, y)
  {
    forall i: Id
      ensures y(i) == x(i)
    {
      if i in fs { assert x(i) == y(i); } else { assert t(i) == r(i); }
    }
  }

  lemma CarriedLast(results: seq<Id>, x0: State, fresh': seq<Id>, fs: seq<Id>, x: State, z: State)
    requires |results| == |fresh'| > 0 && Among(fresh', fs) && Carried(results, x0, fresh', x) && SameOn(fs, x, z)
    ensures var n := |results| - 1;
            Carried(results[..n], x0, fresh'[..n], x) && x0(results[n])([]) == z(fresh'[n])([])
  {
  }

  lemma SameOnOver(fs: seq<Id>, x: State, z: State, y: State)
    requires SameOn(fs, x, z) && SameOn(fs, x, y)
    ensures SameOn(fs, z, y)
  {
  }

  lemma {:induction false} SeenKept(outs: seq<Target>, results: seq<Id>, fs: seq<Id>, x0: State,
                                    s: State, o: State, r: State, t: State)
    requires |outs| == |results| && (forall k :: 0 <= k < |outs| ==> outs[k].x !in fs)
    requires SameOn(fs, r, s) && Delivered(outs, results, x0, o, r, t)
    ensures SameOn(fs, t, s)
  {
    if outs != [] {
      var n := |outs| - 1;
      var m := DeliveredLast(outs, results, x0, o, r, t);
      SeenKept(outs[..n], results[..n], fs, x0, s, o, r, m);
    }
  }

  lemma {:induction false} InlinedKept(outs: seq<Target>, fresh': seq<Id>, fs: seq<Id>, o: State, x: State, y: State)
    requires |outs| == |fresh'| && (forall k :: 0 <= k < |outs| ==> outs[k].x !in fs)
    requires ExecSeq(Outs(outs, fresh'), o, x, y)
    ensures SameOn(fs, x, y)
  {
    if outs != [] {
      var n := |outs| - 1;
      var all := Outs(outs, fresh');
      var z: State :| ExecSeq(all[..n], o, x, z) && Exec(all[n], o, z, y);
      assert all[..n] == Outs(outs[..n], fresh'[..n]);
      InlinedKept(outs[..n], fresh'[..n], fs, o, x, z);
    }
  }

  lemma {:induction false} DeliverCalled(outs: seq<Target>, results: seq<Id>, fresh': seq<Id>, fs: seq<Id>, x0: State,
                                         s: State, o: State, r: State, x: State, t: State, y: State)
    requires |outs| == |results| == |fresh'| && Among(fresh', fs)
    requires forall k :: 0 <= k < |outs| ==> TargetClear(outs[k], fs)
    requires Carried(results, x0, fresh', x)
    requires Seen(fs, s, r, x) && Seen(fs, s, t, y)
    requires ExecSeq(Outs(outs, fresh'), o, x, y)
    ensures Delivered(outs, results, x0, o, r, t)
  {
    if outs == [] {
      forall i: Id
        ensures t(i) == r(i)
      {
        if i in fs { assert t(i) == s(i) == r(i); } else { assert y(i) == x(i); }
      }
    } else {
      hide Assigned, Delivered;
      var n := |outs| - 1;
      var all := Outs(outs, fresh');
      var z: State :| ExecSeq(all[..n], o, x, z) && Exec(all[n], o, z, y);
      assert all[..n] == Outs(outs[..n], fresh'[..n]);
      var m := MakeSeen(fs, s, z);
      InlinedKept(outs, fresh', fs, o, x, y);
      InlinedKept(outs[..n], fresh'[..n], fs, o, x, z);
      SameOnOver(fs, x, z, y);
      DeliverCalled(outs[..n], results[..n], fresh'[..n], fs, x0, s, o, r, x, m, z);
      StoreSeen(outs[n], fresh'[n], fs, s, o, m, z, t, y);
      assert x0(results[n])([]) == z(fresh'[n])([]);
      DeliveredSnoc(outs, results, x0, o, r, m, t);
    }
  }

  /** Binding the formals one by one binds them all at once. */
  lemma {:induction false} BindInlined(ps: seq<Id>, actuals: seq<Expr>, fs: seq<Id>, o: State, s: State, s1: State,
                                       e: State)
    requires |ps| == |actuals| && Among(ps, fs) && AllClearOf(actuals, fs)
    requires NoRepeat(ps) && SameOff(fs, s, s1) && ExecSeq(Ins(ps, actuals), o, s1, e)
    ensures Bound(ps, actuals, o, s, s1, e)
  {
    hide Exec, Bound, AllClearOf, NoRepeat, SameOff, Among;
    if ps == [] {
      assert Same(s1, e);
      NothingBound(o, s, s1, e);
      assert actuals == [];
    } else {
      hide ExecSeq;
      var n := |ps| - 1;
      var all := Ins(ps, actuals);
      var m := Unsnoc(all, o, s1, e);
      assert all[..n] == Ins(ps[..n], actuals[..n]) && all[n] == Assign(Target(ps[n], []), actuals[n]);
      NoRepeatLast(ps);
      ClearLast(actuals, fs);
      AmongLast(ps, fs);
      BindInlined(ps[..n], actuals[..n], fs, o, s, s1, m);
      BindOne(ps, actuals, fs, o, s, s1, m, e);
    }
  }

  /** The formals hold the values of the actuals in s, and nothing else has changed. */
  ghost predicate Bound(ps: seq<Id>, actuals: seq<Expr>, o: State, s: State, s1: State, e: State)
    requires |ps| == |actuals|
  {
    SameOff(ps, s1, e) && forall k :: 0 <= k < |ps| ==> e(ps[k])([]) == Eval(actuals[k], Now(o, s), map[])
  }

  predicate AllClearOf(es: seq<Expr>, fs: seq<Id>)
  {
    forall k :: 0 <= k < |es| ==> ClearOf(es[k], fs)
  }

  lemma NothingBound(o: State, s: State, s1: State, e: State)
    requires Same(s1, e)
    ensures Bound([], [], o, s, s1, e)
  {
  }

  lemma ClearLast(es: seq<Expr>, fs: seq<Id>)
    requires AllClearOf(es, fs) && es != []
    ensures AllClearOf(es[..|es| - 1], fs) && ClearOf(es[|es| - 1], fs)
  {
    hide ClearOf;
  }

  lemma AmongLast(xs: seq<Id>, fs: seq<Id>)
    requires Among(xs, fs) && xs != []
    ensures Among(xs[..|xs| - 1], fs) && xs[|xs| - 1] in fs
  {
  }

  lemma BindOne(ps: seq<Id>, actuals: seq<Expr>, fs: seq<Id>, o: State, s: State, s1: State, m: State, e: State)
    requires |ps| == |actuals| && ps != [] && NoRepeat(ps) && Among(ps[..|ps| - 1], fs) &&
             ClearOf(actuals[|ps| - 1], fs)
    requires SameOff(fs, s, s1) && Bound(ps[..|ps| - 1], actuals[..|ps| - 1], o, s, s1, m)
    requires Exec(Assign(Target(ps[|ps| - 1], []), actuals[|ps| - 1]), o, m, e)
    ensures Bound(ps, actuals, o, s, s1, e)
  {
    hide Exec, Eval, ClearOf, NoRepeat;
    var n := |ps| - 1;
    var before := ps[..n];
    forall i: Id | i !in fs
      ensures s(i) == m(i)
    {
      assert forall k :: 0 <= k < n ==> before[k] in fs;
    }
    EvalSeen(actuals[n], fs, o, s, m, map[]);
    AssignedConst(ps[n], actuals[n], o, m, e);
    NoRepeatLast(ps);
    forall k | 0 <= k < n
      ensures e(ps[k])([]) == Eval(actuals[k], Now(o, s), map[])
    {
      assert before[k] == ps[k] && actuals[..n][k] == actuals[k];
    }
    assert ps == before + [ps[n]];
  }

  lemma AssignedConst(x: Id, rhs: Expr, o: State, s: State, t: State)
    requires Exec(Assign(Target(x, []), rhs), o, s, t)
    ensures t(x)([]) == Eval(rhs, Now(o, s), map[])
    ensures forall i: Id :: i != x ==> t(i) == s(i)
  {
    assert Assigned(Target(x, []), rhs, o, s, t);
  }

  lemma NoRepeatLast(ids: seq<Id>)
    requires NoRepeat(ids) && ids != []
    ensures NoRepeat(ids[..|ids| - 1])
    ensures var n := |ids| - 1; forall k :: 0 <= k < n ==> ids[k] != ids[n]
  {
  }

  lemma {:induction false} BindDone(ps: seq<Id>, actuals: seq<Expr>, fs: seq<Id>, o: State, s: State, e: State)
    requires |ps| == |actuals| && Among(ps, fs) && AllClearOf(actuals, fs)
    requires SameOff(fs, s, e)
    requires forall k :: 0 <= k < |ps| ==> e(ps[k])([]) == Eval(actuals[k], Now(o, s), map[])
    ensures ExecSeq(Ins(ps, actuals), o, e, e)
  {
    if ps != [] {
      var n := |ps| - 1;
      var all := Ins(ps, actuals);
      assert all[..n] == Ins(ps[..n], actuals[..n]);
      BindDone(ps[..n], actuals[..n], fs, o, s, e);
      EvalSeen(actuals[n], fs, o, s, e, map[]);
      assert Assigned(Target(ps[n], []), actuals[n], o, e, e);
    }
  }

  // ----- the states inside the inlined call -----

  /** The permutation that the renaming of the formals extends to. */
  ghost predicate Extends(p: Perm, m: IdMap)
  {
    && Bijective(p)
    && (forall f :: f in m ==> p.to(f) == m[f])
    && (forall i: Id :: i !in m && i !in m.Values ==> p.to(i) == i)
  }

  /** fs are the formals and news their new names. */
  ghost predicate Formal(m: IdMap, fs: seq<Id>, news: seq<Id>)
  {
    && (forall i :: i in fs <==> i in m)
    && (forall i :: i in news <==> i in m.Values)
  }

  lemma NewNames(m: IdMap, fs: seq<Id>)
    requires forall i :: i in fs <==> i in m
    ensures Formal(m, fs, IdsOf(m, fs))
  {
    forall i | i in m.Values
      ensures i in IdsOf(m, fs)
    {
      var f :| f in m && m[f] == i;
      var k :| 0 <= k < |fs| && fs[k] == f;
      assert IdsOf(m, fs)[k] == i;
    }
    forall i | i in IdsOf(m, fs)
      ensures i in m.Values
    {
      var k :| 0 <= k < |fs| && IdsOf(m, fs)[k] == i;
      assert fs[k] in fs;
    }
  }

  lemma ExtendsFollows(p: Perm, m: IdMap)
    requires Extends(p, m)
    ensures Follows(p, m, Introduced(m)) && Confined(p, Moved(m), Introduced(m))
  {
    assert forall f :: f in m && m[f] != f ==> f in Moved(m) && m[f] in Moved(m);
    forall i: Id | i !in Moved(m)
      ensures p.to(i) == i
    {
      assert forall f :: f in m && m[f] == i ==> f == i;
    }
    forall i | i in Introduced(m)
      ensures i in Moved(m)
    {
      var f :| f in m && m[f] == i;
    }
  }

  /** The old names that are no new names are where the permutation sends the new ones. */
  lemma Vacated(p: Perm, m: IdMap, i: Id)
    requires Extends(p, m)
    ensures i in PermSet(Introduced(m), p) <==> i in m && i !in m.Values
  {
    var j := p.from(i);
    assert p.to(j) == i;
    PermSetHas(Introduced(m), p, j);
    if j in m.Values {
      var g :| g in m && m[g] == j;
      assert p.to(g) == j;
    }
    assert forall g :: g in m && m[g] == i ==> p.from(p.to(g)) == g;
  }

  /** The state of the call at entry, from the inlined one. */
  lemma Outward(p: Perm, m: IdMap, fs: seq<Id>, news: seq<Id>, s: State, e1: State) returns (e: State)
    requires Extends(p, m) && Formal(m, fs, news)
    ensures Twin(p, Introduced(m), e, e1) && (forall i :: i in Introduced(m) ==> e(i) == s(i))
    ensures SameOff(news, e1, s) ==> SameOff(fs, e, s)
  {
    e := Uncarry(p, Introduced(m), e1, s);
    forall i: Id | i !in fs && SameOff(news, e1, s)
      ensures e(i) == s(i)
    {
      if i !in m.Values {
        assert p.to(i) == i && e1(i) == s(i);
      }
    }
  }

  /** The state of the inlined call at entry. */
  lemma Inward(p: Perm, m: IdMap, fs: seq<Id>, news: seq<Id>, s: State, e: State) returns (e1: State)
    requires Extends(p, m) && Formal(m, fs, news)
    ensures Twin(p, Introduced(m), e, e1) && Kept(p, Introduced(m), s, e1)
    ensures SameOff(fs, e, s) ==> SameOff(news, e1, s)
  {
    e1 := CarryTwin(p, Introduced(m), e, s);
    forall j: Id | j !in news && SameOff(fs, e, s)
      ensures e1(j) == s(j)
    {
      var i := p.from(j);
      assert p.to(i) == j;
      if i !in Introduced(m) {
        assert i !in m && p.to(i) == i && e1(p.to(i)) == e(i);
      }
    }
  }

  /** After the callee, the caller sees the same state either way. */
  lemma SeenAfter(p: Perm, m: IdMap, fs: seq<Id>, news: seq<Id>, s: State, x: State, x1: State, r: State)
    requires Extends(p, m) && Formal(m, fs, news)
    requires Twin(p, Introduced(m), x, x1) && (forall i :: i in Introduced(m) ==> x(i) == s(i))
    requires Kept(p, Introduced(m), s, x1) && Left(fs, s, x, r)
    ensures Seen(news, s, r, x1)
  {
    forall i: Id
      ensures i in news ==> r(i) == s(i)
      ensures i !in news ==> r(i) == x1(i)
    {
      Vacated(p, m, i);
      if i in news && i !in fs {
        assert i in Introduced(m);
      }
      if i !in news && i in fs {
        var j :| j in Introduced(m) && p.to(j) == i;
        assert x1(i) == s(i);
      }
      if i !in news && i !in fs {
        assert p.to(i) == i && x1(p.to(i)) == x(i);
      }
    }
  }

  // ----- sequences of three -----

  lemma Three(a: Action, b: Action, c: Action, o: State, s: State, e: State, x: State, t: State)
    requires Exec(a, o, s, e) && Exec(b, o, e, x) && Exec(c, o, x, t)
    ensures ExecSeq([a, b, c], o, s, t)
  {
    hide Exec, ExecSeq;
    SeqOne(a, o, s, e);
    SeqLast([a, b], [a], b, o, s, x);
    SeqLast([a, b, c], [a, b], c, o, s, t);
    assert [a] + [b] == [a, b] && [a, b] + [c] == [a, b, c];
  }

  lemma Unthree(a: Action, b: Action, c: Action, o: State, s: State, t: State) returns (e: State, x: State)
    requires ExecSeq([a, b, c], o, s, t)
    ensures Exec(a, o, s, e) && Exec(b, o, e, x) && Exec(c, o, x, t)
  {
    hide Exec, ExecSeq;
    assert [a] + [b] == [a, b] && [a, b] + [c] == [a, b, c];
    SeqLast([a, b, c], [a, b], c, o, s, t);
    x :| ExecSeq([a, b], o, s, x) && Exec(c, o, x, t);
    SeqLast([a, b], [a], b, o, s, x);
    e :| ExecSeq([a], o, s, e) && Exec(b, o, e, x);
    SeqOne(a, o, s, e);
  }

  lemma ThreeAborts(a: Action, b: Action, c: Action, o: State, s: State)
    requires forall s': State :: !Aborts(a, o, s') && !Aborts(c, o, s')
    ensures AbortsSeq([a, b, c], o, s) <==> exists e: State :: Exec(a, o, s, e) && Aborts(b, o, e)
  {
    hide Exec, Aborts, ExecSeq, AbortsSeq;
    assert [a] + [b] == [a, b] && [a, b] + [c] == [a, b, c];
    SeqLast([a, b, c], [a, b], c, o, s, s);
    SeqLast([a, b], [a], b, o, s, s);
    forall e: State
      ensures ExecSeq([a], o, s, e) <==> Exec(a, o, s, e)
      ensures !AbortsSeq([a], o, s)
    {
      SeqOne(a, o, s, e);
    }
    assert !AbortsSeq([a], o, s) by { SeqOne(a, o, s, s); }
  }

  lemma {:induction false} AssignsNeverAbort(es: seq<Action>, o: State, s: State)
    requires forall e :: e in es ==> e.Assign?
    ensures !AbortsSeq(es, o, s)
  {
    if es != [] {
      var n := |es| - 1;
      AssignsNeverAbort(es[..n], o, s);
      assert es[n] in es;
      assert forall m: State :: !Aborts(es[n], o, m);
    }
  }

  // ----- the theorem -----

  /** The callee keeps to itself what the renaming changes. */
  ghost predicate Stays(callee: Action, m: IdMap, p: Perm)
  {
    Confined(p, Moved(m), Introduced(m)) && ActionAvoids(callee, Moved(m), Introduced(m), Introduced(m))
  }

  /** What inlining relies on, collected for the proof. */
  ghost predicate Inlining(params: seq<Id>, results: seq<Id>, callee: Action, actuals: seq<Expr>, outs: seq<Target>,
                           m: IdMap, p: Perm)
  {
    var fs, news := params + results, IdsOf(m, params) + IdsOf(m, results);
    && |params| == |actuals| && |results| == |outs|
    && Extends(p, m) && Formal(m, fs, news) && news == PermIds(fs, p)
    && Stays(callee, m, p) && RenameAction(callee, m) == Permute(callee, p)
    && AllClear(actuals, outs, news) && NoRepeat(IdsOf(m, params))
  }

  lemma {:induction false} NamesOfTargets(outs: seq<Target>, k: nat)
    requires k < |outs|
    ensures outs[k].x.name in TargetNames(outs) && ArgNames(outs[k].args) <= TargetNames(outs)
  {
    if k < |outs| - 1 {
      NamesOfTargets(outs[..|outs| - 1], k);
    }
  }

  lemma ClearByName(e: Expr, es: seq<Expr>, vocab: set<string>, fs: seq<Id>)
    requires e in es && StateExpr(e) && ArgNames(es) <= vocab
    requires forall f :: f in fs ==> f.name !in vocab
    ensures ClearOf(e, fs)
  {
    forall y | y in Syms(e) && y.kind.Base?
      ensures y.id !in fs
    {
      SymsOfElement(es, e, y);
      assert Spell(y) in ArgNames(es);
    }
  }

  lemma {:induction false} SymsOfElement(es: seq<Expr>, e: Expr, y: Sym)
    requires e in es && y in Syms(e)
    ensures y in SymsAll(es)
  {
    if e != es[|es| - 1] {
      assert e in es[..|es| - 1];
      SymsOfElement(es[..|es| - 1], e, y);
    }
  }

  lemma CallableInlining(params: seq<Id>, results: seq<Id>, callee: Action, actuals: seq<Expr>, outs: seq<Target>)
    returns (p: Perm)
    requires |params| == |actuals| && |results| == |outs| && Callable(params, results, callee, actuals, outs)
    ensures Inlining(params, results, callee, actuals, outs, CallRenaming(params, results, actuals, outs), p)
  {
    hide ActionAvoids, Renamable, RenameAction, Permute, StateExprs, StateTargets, DistinctObjRenaming, NoRepeat,
      AllClear, Extends, Formal, Follows, Confined, InjectiveIds, Introduced, Moved, IdsOf, PermIds, ArgNames,
      TargetNames;
    var fs := params + results;
    var vocab := ArgNames(actuals) + TargetNames(outs);
    var m := DistinctObjRenaming(fs, vocab).m;
    p := RenamingSetup(fs, vocab);
    assert IdsOf(m, params) + IdsOf(m, results) == IdsOf(m, fs);
    RenameActionIs(callee, p, m, Introduced(m), Moved(m));
    RenamableAvoids(callee, Introduced(m), Moved(m));
    NewsClear(actuals, outs, IdsOf(m, fs));
    NewsDistinct(m, fs, params);
  }

  lemma NewsDistinct(m: IdMap, fs: seq<Id>, params: seq<Id>)
    requires InjectiveIds(m) && NoRepeat(params) && params <= fs && m.Keys == set f | f in fs
    ensures NoRepeat(IdsOf(m, params))
  {
    forall i, j | 0 <= i < j < |params|
      ensures IdOf(m, params[i]) != IdOf(m, params[j])
    {
      assert params[i] == fs[i] && params[j] == fs[j];
    }
  }

  lemma NewsClear(actuals: seq<Expr>, outs: seq<Target>, news: seq<Id>)
    requires StateExprs(actuals) && StateTargets(outs)
    requires forall f :: f in news ==> f.name !in ArgNames(actuals) + TargetNames(outs)
    ensures AllClear(actuals, outs, news)
  {
    hide StateExpr, ClearOf, ArgNames, TargetNames;
    var vocab := ArgNames(actuals) + TargetNames(outs);
    forall k | 0 <= k < |actuals|
      ensures ClearOf(actuals[k], news)
    {
      ClearByName(actuals[k], actuals, vocab, news);
    }
    forall k | 0 <= k < |outs|
      ensures TargetClear(outs[k], news)
    {
      NamesOfTargets(outs, k);
      forall e | e in outs[k].args
        ensures ClearOf(e, news)
      {
        ClearByName(e, outs[k].args, vocab, news);
      }
    }
  }

  lemma RenamingSetup(fs: seq<Id>, vocab: set<string>) returns (p: Perm)
    ensures var m := DistinctObjRenaming(fs, vocab).m;
            && Extends(p, m) && Formal(m, fs, IdsOf(m, fs)) && IdsOf(m, fs) == PermIds(fs, p)
            && Follows(p, m, Introduced(m)) && Confined(p, Moved(m), Introduced(m))
            && InjectiveIds(m) && (forall f :: f in IdsOf(m, fs) ==> f.name !in vocab)
  {
    hide DistinctObjRenaming;
    var m := DistinctObjRenaming(fs, vocab).m;
    assert InjectiveIds(m);
    p := Permutation(fs, m);
    NewNames(m, fs);
    ExtendsFollows(p, m);
    assert forall k :: 0 <= k < |fs| ==> fs[k] in fs;
  }

  lemma NewsAmong(xs: seq<Id>, ys: seq<Id>)
    ensures Among(xs, xs + ys) && Among(ys, xs + ys)
  {
    assert forall k :: 0 <= k < |ys| ==> (xs + ys)[|xs| + k] == ys[k];
  }

  /** The inlined call, given the renaming. */
  function Inlined(params: seq<Id>, results: seq<Id>, callee: Action, actuals: seq<Expr>, outs: seq<Target>, m: IdMap):
    Action
    requires |params| == |actuals| && |results| == |outs|
  {
    Local(IdsOf(m, params) + IdsOf(m, results), Sequence(Steps(params, results, callee, actuals, outs, m)))
  }

  function Steps(params: seq<Id>, results: seq<Id>, callee: Action, actuals: seq<Expr>, outs: seq<Target>, m: IdMap):
    seq<Action>
    requires |params| == |actuals| && |results| == |outs|
  {
    [Sequence(Ins(IdsOf(m, params), actuals)), BindOldsAction(RenameAction(callee, m)),
     Sequence(Outs(outs, IdsOf(m, results)))]
  }

  /** Entering the inlined call is entering the call. */
  lemma EnterCalled(params: seq<Id>, results: seq<Id>, callee: Action, actuals: seq<Expr>, outs: seq<Target>,
                    m: IdMap, p: Perm, o: State, s: State, s1: State, e1: State) returns (e: State)
    requires Inlining(params, results, callee, actuals, outs, m, p)
    requires SameOff(IdsOf(m, params) + IdsOf(m, results), s1, s)
    requires ExecSeq(Ins(IdsOf(m, params), actuals), o, s1, e1)
    ensures Twin(p, Introduced(m), e, e1) && (forall i :: i in Introduced(m) ==> e(i) == s(i))
    ensures SameOff(IdsOf(m, params) + IdsOf(m, results), e1, s)
    ensures Entered(params, results, actuals, o, s, e)
  {
    hide Twin, Stays, RenameAction, Permute, Introduced, ExecSeq;
    var ps, rs := IdsOf(m, params), IdsOf(m, results);
    NewsAmong(ps, rs);
    BindInlined(ps, actuals, ps + rs, o, s, s1, e1);
    e := Outward(p, m, params + results, ps + rs, s, e1);
    forall k | 0 <= k < |params|
      ensures e(params[k])([]) == Eval(actuals[k], Now(o, s), map[])
    {
      FormalValue(p, m, params + results, e, e1, k);
    }
  }

  lemma FormalValue(p: Perm, m: IdMap, fs: seq<Id>, e: State, e1: State, k: nat)
    requires Extends(p, m) && Twin(p, Introduced(m), e, e1) && k < |fs| && fs[k] in m
    ensures e(fs[k]) == e1(IdOf(m, fs[k]))
  {
  }

  lemma EnterInlined(params: seq<Id>, results: seq<Id>, callee: Action, actuals: seq<Expr>, outs: seq<Target>,
                     m: IdMap, p: Perm, o: State, s: State, e: State) returns (e1: State)
    requires Inlining(params, results, callee, actuals, outs, m, p)
    requires Entered(params, results, actuals, o, s, e)
    ensures Twin(p, Introduced(m), e, e1) && Kept(p, Introduced(m), s, e1)
    ensures forall i :: i in Introduced(m) ==> e(i) == s(i)
    ensures SameOff(IdsOf(m, params) + IdsOf(m, results), e1, s)
    ensures ExecSeq(Ins(IdsOf(m, params), actuals), o, e1, e1)
  {
    hide Twin, Kept, Stays, RenameAction, Permute, ExecSeq;
    var ps, rs := IdsOf(m, params), IdsOf(m, results);
    NewsAmong(ps, rs);
    e1 := Inward(p, m, params + results, ps + rs, s, e);
    forall k | 0 <= k < |params|
      ensures e1(ps[k])([]) == Eval(actuals[k], Now(o, s), map[])
    {
      assert (params + results)[k] == params[k];
      FormalValue(p, m, params + results, e, e1, k);
    }
    BindDone(ps, actuals, ps + rs, o, s, e1);
  }

  lemma ResultsCarried(p: Perm, m: IdMap, results: seq<Id>, x: State, x1: State)
    requires Extends(p, m) && Twin(p, Introduced(m), x, x1) && forall k :: 0 <= k < |results| ==> results[k] in m
    ensures Carried(results, x, IdsOf(m, results), x1)
  {
    forall k | 0 <= k < |results|
      ensures x(results[k]) == x1(IdOf(m, results[k]))
    {
      FormalValue(p, m, results, x, x1, k);
    }
  }

  lemma ResultsFormal(m: IdMap, params: seq<Id>, results: seq<Id>, news: seq<Id>)
    requires Formal(m, params + results, news)
    ensures forall k :: 0 <= k < |results| ==> results[k] in m
  {
    assert forall k :: 0 <= k < |results| ==> (params + results)[|params| + k] == results[k];
  }

  lemma CallUnrun(a: Action, o: State, s: State, t: State) returns (e: State, x: State, r: State)
    requires a.Call? && Exec(a, o, s, t)
    ensures |a.params| == |a.actuals| && |a.results| == |a.outs|
    ensures Entered(a.params, a.results, a.actuals, o, s, e) && Exec(a.callee, e, e, x)
    ensures Left(a.params + a.results, s, x, r) && Delivered(a.outs, a.results, x, o, r, t)
  {
    hide Entered, Left, Delivered;
    e, x, r :| Entered(a.params, a.results, a.actuals, o, s, e) && Exec(a.callee, e, e, x)
      && Left(a.params + a.results, s, x, r) && Delivered(a.outs, a.results, x, o, r, t);
  }

  lemma LocalUnrun(a: Action, o: State, s: State, t: State) returns (s1: State, t1: State)
    requires a.Local? && Exec(a, o, s, t)
    ensures SameOn(a.xs, s, t) && SameOff(a.xs, s1, s) && SameOff(a.xs, t1, t) && Exec(a.body, o, s1, t1)
  {
    hide SameOff, SameOn;
    s1, t1 :| SameOff(a.xs, s1, s) && SameOff(a.xs, t1, t) && Exec(a.body, o, s1, t1);
  }

  /** A run of the call is a run of the inlined call. */
  lemma CallInlined(params: seq<Id>, results: seq<Id>, callee: Action, actuals: seq<Expr>, outs: seq<Target>,
                    m: IdMap, p: Perm, o: State, s: State, t: State)
    requires Inlining(params, results, callee, actuals, outs, m, p)
    requires Exec(Call(params, results, callee, actuals, outs), o, s, t)
    ensures Exec(Inlined(params, results, callee, actuals, outs, m), o, s, t)
  {
    hide Twin, Kept, Stays, RenameAction, Permute, Introduced, Entered, Delivered, Left, Seen, Formal, NoRepeat, Exec,
      ExecSeq, Carried, TargetClear, ClearOf, Follows;
    var fs, ps, rs := params + results, IdsOf(m, params), IdsOf(m, results);
    var e, x, r := CallUnrun(Call(params, results, callee, actuals, outs), o, s, t);
    var e1 := EnterInlined(params, results, callee, actuals, outs, m, p, o, s, e);
    forall i | i in Introduced(m)
      ensures x(i) == s(i)
    {
      CalleeKeeps(callee, m, p, e, x, i);
    }
    var x1 := CalleeInlined(callee, p, m, s, e, x, e1);
    SeenAfter(p, m, fs, ps + rs, s, x, x1, r);
    ResultsFormal(m, params, results, ps + rs);
    ResultsCarried(p, m, results, x, x1);
    var t1 := InlinedDelivery(outs, results, rs, ps + rs, x, s, o, r, x1, t) by { NewsAmong(ps, rs); }
    InlinedRun(params, results, callee, actuals, outs, m, o, s, t, e1, x1, t1);
  }

  lemma CalleeKeeps(callee: Action, m: IdMap, p: Perm, e: State, x: State, i: Id)
    requires Stays(callee, m, p) && Exec(callee, e, e, x) && i in Introduced(m)
    ensures x(i) == e(i)
  {
    hide Exec;
    ExecFrame(callee, Moved(m), Introduced(m), Introduced(m), e, e, x, i);
  }

  lemma CalleeInlined(callee: Action, p: Perm, m: IdMap, s: State, e: State, x: State, e1: State) returns (x1: State)
    requires Bijective(p) && Stays(callee, m, p) && Exec(callee, e, e, x)
    requires Twin(p, Introduced(m), e, e1) && Kept(p, Introduced(m), s, e1)
    ensures Twin(p, Introduced(m), x, x1) && Kept(p, Introduced(m), s, x1) && Exec(Permute(callee, p), e1, e1, x1)
  {
    hide Exec;
    var xs := Introduced(m);
    x1 := CarryTwin(p, xs, x, s);
    KeptOn(p, xs, s, e1, x1);
    ExecTwin(callee, p, Moved(m), xs, xs, e, e, x, e1, e1, x1);
  }

  lemma InlinedDelivery(outs: seq<Target>, results: seq<Id>, rs: seq<Id>, news: seq<Id>, x: State,
                        s: State, o: State, r: State, x1: State, t: State) returns (t1: State)
    requires |outs| == |results| == |rs| && Among(rs,
                                                  news) && (forall k :: 0 <= k < |outs| ==> TargetClear(outs[k], news))
    requires Carried(results, x, rs, x1) && Seen(news, s, r, x1) && Delivered(outs, results, x, o, r, t)
    ensures Seen(news, s, t, t1) && ExecSeq(Outs(outs, rs), o, x1, t1)
  {
    hide ExecSeq, Delivered, Carried;
    SeenKept(outs, results, news, x, s, o, r, t);
    t1 := MakeInner(news, s, x1, t);
    DeliverInlined(outs, results, rs, news, x, s, o, r, x1, t, t1);
  }

  lemma InlinedRun(params: seq<Id>, results: seq<Id>, callee: Action, actuals: seq<Expr>, outs: seq<Target>, m: IdMap,
                   o: State, s: State, t: State, e1: State, x1: State, t1: State)
    requires |params| == |actuals| && |results| == |outs|
    requires SameOff(IdsOf(m, params) + IdsOf(m, results), e1, s)
    requires ExecSeq(Ins(IdsOf(m, params), actuals), o, e1, e1)
    requires Exec(RenameAction(callee, m), e1, e1, x1)
    requires ExecSeq(Outs(outs, IdsOf(m, results)), o, x1, t1)
    requires Seen(IdsOf(m, params) + IdsOf(m, results), s, t, t1)
    ensures Exec(Inlined(params, results, callee, actuals, outs, m), o, s, t)
  {
    hide ExecSeq, RenameAction;
    var ps, rs := IdsOf(m, params), IdsOf(m, results);
    Three(Sequence(Ins(ps, actuals)), BindOldsAction(RenameAction(callee, m)), Sequence(Outs(outs, rs)), o, e1, e1, x1,
          t1);
    assert Exec(Sequence(Steps(params, results, callee, actuals, outs, m)), o, e1, t1);
    assert SameOff(ps + rs, t1, t);
  }

  /** A run of the inlined call is a run of the call. */
  lemma InlinedCall(params: seq<Id>, results: seq<Id>, callee: Action, actuals: seq<Expr>, outs: seq<Target>,
                    m: IdMap, p: Perm, o: State, s: State, t: State)
    requires Inlining(params, results, callee, actuals, outs, m, p)
    requires Exec(Inlined(params, results, callee, actuals, outs, m), o, s, t)
    ensures Exec(Call(params, results, callee, actuals, outs), o, s, t)
  {
    hide Twin, Stays, RenameAction, Permute, Introduced, Entered, Delivered, Left, Formal, NoRepeat, Exec, ExecSeq,
      Carried, TargetClear, ClearOf, SameOff, SameOn;
    var fs, ps, rs := params + results, IdsOf(m, params), IdsOf(m, results);
    var s1, t1 := LocalUnrun(Inlined(params, results, callee, actuals, outs, m), o, s, t);
    var e1, x1 := StepsUnrun(params, results, callee, actuals, outs, m, o, s1, t1);
    var e := EnterCalled(params, results, callee, actuals, outs, m, p, o, s, s1, e1);
    var x, r := CalleeCalled(callee, p, m, fs, ps + rs, s, e, e1, x1);
    ResultsFormal(m, params, results, ps + rs);
    ResultsCarried(p, m, results, x, x1);
    NewsAmong(ps, rs);
    SeenScope(ps + rs, s, t, t1);
    DeliverCalled(outs, results, rs, ps + rs, x, s, o, r, x1, t, t1);
    CallRun(Call(params, results, callee, actuals, outs), o, s, e, x, r, t);
  }

  lemma SeenScope(fs: seq<Id>, s: State, t: State, t1: State)
    requires SameOn(fs, s, t) && SameOff(fs, t1, t)
    ensures Seen(fs, s, t, t1)
  {
  }

  lemma StepsUnrun(params: seq<Id>, results: seq<Id>, callee: Action, actuals: seq<Expr>, outs: seq<Target>, m: IdMap,
                   o: State, s: State, t: State) returns (e1: State, x1: State)
    requires |params| == |actuals| && |results| == |outs|
    requires Exec(Sequence(Steps(params, results, callee, actuals, outs, m)), o, s, t)
    ensures ExecSeq(Ins(IdsOf(m, params), actuals), o, s, e1) && Exec(RenameAction(callee, m), e1, e1, x1)
    ensures ExecSeq(Outs(outs, IdsOf(m, results)), o, x1, t)
  {
    hide RenameAction, ExecSeq;
    var steps := Steps(params, results, callee, actuals, outs, m);
    e1, x1 := Unthree(steps[0], steps[1], steps[2], o, s, t);
  }

  lemma CalleeCalled(callee: Action, p: Perm, m: IdMap, fs: seq<Id>, news: seq<Id>, s: State, e: State, e1: State,
                     x1: State)
    returns (x: State, r: State)
    requires Extends(p, m) && Formal(m, fs, news) && Stays(callee, m, p)
    requires Twin(p, Introduced(m), e, e1) && (forall i :: i in Introduced(m) ==> e(i) == s(i))
    requires SameOff(news, e1, s) && Exec(Permute(callee, p), e1, e1, x1)
    ensures Twin(p, Introduced(m), x, x1) && Exec(callee, e, e, x) && Left(fs, s, x, r) && Seen(news, s, r, x1)
  {
    hide Exec, Twin, Permute;
    x := Outward(p, m, fs, news, s, x1);
    PermuteAvoids(callee, p, Moved(m), Introduced(m), Introduced(m));
    ConfinedBack(p, Moved(m), Introduced(m));
    forall i | i in Introduced(m)
      ensures x1(p.to(i)) == s(p.to(i))
    {
      PermSetHas(Introduced(m), p, i);
      Vacated(p, m, p.to(i));
      ExecFrame(Permute(callee, p), Moved(m), PermSet(Introduced(m), p), PermSet(Introduced(m), p), e1, e1, x1,
                p.to(i));
    }
    ExecUntwin(callee, p, Moved(m), Introduced(m), Introduced(m), e, e, x, e1, e1, x1);
    r := Mixed(fs, s, x);
    SeenAfter(p, m, fs, news, s, x, x1, r);
  }

  lemma CallAborts(params: seq<Id>, results: seq<Id>, callee: Action, actuals: seq<Expr>, outs: seq<Target>,
                   m: IdMap, p: Perm, o: State, s: State)
    requires Inlining(params, results, callee, actuals, outs, m, p)
    ensures Aborts(Inlined(params, results, callee, actuals, outs, m), o, s) <==>
            Aborts(Call(params, results, callee, actuals, outs), o, s)
  {
    if Aborts(Inlined(params, results, callee, actuals, outs, m), o, s) {
      AbortCalled(params, results, callee, actuals, outs, m, p, o, s);
    }
    if Aborts(Call(params, results, callee, actuals, outs), o, s) {
      AbortInlined(params, results, callee, actuals, outs, m, p, o, s);
    }
  }

  lemma AbortCalled(params: seq<Id>, results: seq<Id>, callee: Action, actuals: seq<Expr>, outs: seq<Target>,
                    m: IdMap, p: Perm, o: State, s: State)
    requires Inlining(params, results, callee, actuals, outs, m, p)
    requires Aborts(Inlined(params, results, callee, actuals, outs, m), o, s)
    ensures Aborts(Call(params, results, callee, actuals, outs), o, s)
  {
    hide Twin, Stays, RenameAction, Permute, Introduced, Entered, Formal, NoRepeat, ExecSeq, AllClear, SameOff, Aborts;
    var s1 := LocalUnabort(Inlined(params, results, callee, actuals, outs, m), o, s);
    var e1 := StepsAbort(params, results, callee, actuals, outs, m, o, s1);
    var e := EnterCalled(params, results, callee, actuals, outs, m, p, o, s, s1, e1);
    CalleeAbortsBack(callee, p, m, e, e1);
    CallAbort(Call(params, results, callee, actuals, outs), o, s, e);
  }

  lemma CalleeAborts(callee: Action, p: Perm, m: IdMap, e: State, e1: State)
    requires Bijective(p) && Stays(callee, m, p) && Aborts(callee, e, e) && Twin(p, Introduced(m), e, e1)
    ensures Aborts(Permute(callee, p), e1, e1)
  {
    hide Aborts;
    AbortsTwin(callee, p, Moved(m), Introduced(m), Introduced(m), e, e, e1, e1);
  }

  lemma CalleeAbortsBack(callee: Action, p: Perm, m: IdMap, e: State, e1: State)
    requires Bijective(p) && Stays(callee, m, p) && Aborts(Permute(callee, p), e1, e1) && Twin(p, Introduced(m), e, e1)
    ensures Aborts(callee, e, e)
  {
    hide Aborts;
    AbortsUntwin(callee, p, Moved(m), Introduced(m), Introduced(m), e, e, e1, e1);
  }

  lemma LocalUnabort(a: Action, o: State, s: State) returns (s1: State)
    requires a.Local? && Aborts(a, o, s)
    ensures SameOff(a.xs, s1, s) && Aborts(a.body, o, s1)
  {
    hide SameOff;
    s1 :| SameOff(a.xs, s1, s) && Aborts(a.body, o, s1);
  }

  lemma CallAbort(a: Action, o: State, s: State, e: State)
    requires a.Call? && |a.params| == |a.actuals| && |a.results| == |a.outs|
    requires Entered(a.params, a.results, a.actuals, o, s, e) && Aborts(a.callee, e, e)
    ensures Aborts(a, o, s)
  {
    hide Entered;
  }

  lemma AbortInlined(params: seq<Id>, results: seq<Id>, callee: Action, actuals: seq<Expr>, outs: seq<Target>,
                     m: IdMap, p: Perm, o: State, s: State)
    requires Inlining(params, results, callee, actuals, outs, m, p)
    requires Aborts(Call(params, results, callee, actuals, outs), o, s)
    ensures Aborts(Inlined(params, results, callee, actuals, outs, m), o, s)
  {
    hide Twin, Kept, Stays, RenameAction, Permute, Introduced, Entered, Formal, NoRepeat, ExecSeq, AllClear, SameOff,
      Aborts, Exec;
    var e := CallUnabort(Call(params, results, callee, actuals, outs), o, s);
    var e1 := EnterInlined(params, results, callee, actuals, outs, m, p, o, s, e);
    CalleeAborts(callee, p, m, e, e1);
    AbortSteps(params, results, callee, actuals, outs, m, o, e1);
    LocalAbort(Inlined(params, results, callee, actuals, outs, m), o, s, e1);
  }

  lemma CallUnabort(a: Action, o: State, s: State) returns (e: State)
    requires a.Call? && Aborts(a, o, s)
    ensures |a.params| == |a.actuals| && |a.results| == |a.outs|
    ensures Entered(a.params, a.results, a.actuals, o, s, e) && Aborts(a.callee, e, e)
  {
    hide Entered;
    e :| Entered(a.params, a.results, a.actuals, o, s, e) && Aborts(a.callee, e, e);
  }

  lemma LocalAbort(a: Action, o: State, s: State, s1: State)
    requires a.Local? && SameOff(a.xs, s1, s) && Aborts(a.body, o, s1)
    ensures Aborts(a, o, s)
  {
    hide SameOff;
  }

  lemma AbortSteps(params: seq<Id>, results: seq<Id>, callee: Action, actuals: seq<Expr>, outs: seq<Target>,
                   m: IdMap, o: State, s: State)
    requires |params| == |actuals| && |results| == |outs|
    requires ExecSeq(Ins(IdsOf(m, params), actuals), o, s, s) && Aborts(RenameAction(callee, m), s, s)
    ensures Aborts(Sequence(Steps(params, results, callee, actuals, outs, m)), o, s)
  {
    hide RenameAction, Exec, Aborts, ExecSeq, AbortsSeq;
    var steps := Steps(params, results, callee, actuals, outs, m);
    StepsThree(params, results, callee, actuals, outs, m, o, s);
    SequenceIs(Ins(IdsOf(m, params), actuals), o, s, s);
    BindIs(RenameAction(callee, m), o, s, s);
    SequenceIs(steps, o, s, s);
    assert Exec(steps[0], o, s, s) && Aborts(steps[1], o, s);
  }

  lemma StepsThree(params: seq<Id>, results: seq<Id>, callee: Action, actuals: seq<Expr>, outs: seq<Target>,
                   m: IdMap, o: State, s: State)
    requires |params| == |actuals| && |results| == |outs|
    ensures var steps := Steps(params, results, callee, actuals, outs, m);
            AbortsSeq(steps, o, s) <==> exists e: State :: Exec(steps[0], o, s, e) && Aborts(steps[1], o, e)
  {
    var ps, rs := IdsOf(m, params), IdsOf(m, results);
    var steps := Steps(params, results, callee, actuals, outs, m);
    forall s': State
      ensures !Aborts(steps[0], o, s') && !Aborts(steps[2], o, s')
    {
      AssignsNeverAbort(Ins(ps, actuals), o, s');
      AssignsNeverAbort(Outs(outs, rs), o, s');
    }
    ThreeAborts(steps[0], steps[1], steps[2], o, s);
  }

  lemma StepsAbort(params: seq<Id>, results: seq<Id>, callee: Action, actuals: seq<Expr>, outs: seq<Target>,
                   m: IdMap, o: State, s: State) returns (e1: State)
    requires |params| == |actuals| && |results| == |outs|
    requires Aborts(Sequence(Steps(params, results, callee, actuals, outs, m)), o, s)
    ensures ExecSeq(Ins(IdsOf(m, params), actuals), o, s, e1) && Aborts(RenameAction(callee, m), e1, e1)
  {
    hide RenameAction;
    var steps := Steps(params, results, callee, actuals, outs, m);
    StepsThree(params, results, callee, actuals, outs, m, o, s);
    e1 :| Exec(steps[0], o, s, e1) && Aborts(steps[1], o, e1);
  }

  /** Calls are call by value-result: when the numbers of arguments match, the inlined call has exactly the
      runs and the aborting runs of the call. */
  lemma InliningCorrect(params: seq<Id>, results: seq<Id>, callee: Action, actuals: seq<Expr>, outs: seq<Target>)
    requires Callable(params, results, callee, actuals, outs)
    ensures var r := ApplyActuals(params, results, callee, actuals, outs);
            var call := Call(params, results, callee, actuals, outs);
            && (r.Some? <==> |params| == |actuals| && |results| == |outs|)
            && (r.Some? ==>
                  && (forall o: State, s: State, t: State :: Exec(r.value, o, s, t) <==> Exec(call, o, s, t))
                  && (forall o: State, s: State :: Aborts(r.value, o, s) <==> Aborts(call, o, s)))
  {
    hide Exec, Aborts, Callable, Inlining, CallRenaming, RenameAction;
    var m := CallRenaming(params, results, actuals, outs);
    if |params| == |actuals| && |results| == |outs| {
      var p := CallableInlining(params, results, callee, actuals, outs);
      var a, call := Inlined(params, results, callee, actuals, outs, m), Call(params, results, callee, actuals, outs);
      assert ApplyActuals(params, results, callee, actuals, outs) == Some(a);
      forall o: State, s: State, t: State
        ensures Exec(a, o, s, t) <==> Exec(call, o, s, t)
      {
        if Exec(a, o, s, t) { InlinedCall(params, results, callee, actuals, outs, m, p, o, s, t); }
        if Exec(call, o, s, t) { CallInlined(params, results, callee, actuals, outs, m, p, o, s, t); }
      }
      forall o: State, s: State
        ensures Aborts(a, o, s) <==> Aborts(call, o, s)
      {
        CallAborts(params, results, callee, actuals, outs, m, p, o, s);
      }
    }
  }
}
