/**
 When the order in which renamings are entered does not matter, and when negated flags are not moved: the renamings
 that updates write, looked at one by one, and what this means for the walk of a compiled action.
 */
module Orders {
  import opened Options
  import opened Names
  import opened Logic
  import opened ClauseOps
  import opened Updates
  import opened Hiding
  import opened Actions
  import opened Sizes
  import opened Atoms
  import opened Somes
  import opened Compiler
  import opened Annotations
  import opened Scopes
  import W = Walkers

  // ----- renamings of program symbols -----

  lemma IdempotentAway(m: Renaming)
    requires forall x :: x in m ==> m[x] !in m
    ensures W.Idempotent(m)
  {
  }

  /** Mid variables: no entry gives a name that another entry renames. */
  lemma MidIdempotent(u1: Update, u2: Update)
    ensures W.Idempotent(MidNew(u1.mod, MidMap(u1, u2))) && W.Idempotent(MidBase(u1.mod, MidMap(u1, u2)))
  {
    hide MidMap, UsedNames, W.Idempotent;
    var mm := MidMap(u1, u2);
    assert forall x :: x in mm ==> mm[x].kind.Skolem?;
    IdempotentAway(MidNew(u1.mod, mm));
    IdempotentAway(MidBase(u1.mod, mm));
  }

  /** Nor for hidden symbols. */
  lemma HideIdempotent(xs: seq<Id>, mod: seq<Id>, c: Clauses)
    ensures W.Idempotent(HideMap(xs, mod, c))
  {
    hide HideMap, UsedNames, W.Idempotent;
    IdempotentAway(HideMap(xs, mod, c));
  }

  /** Nor for old symbols. */
  lemma OldIdempotent(c: Clauses)
    ensures W.Idempotent(OldMap(c))
  {
    hide W.Idempotent, Used;
    IdempotentAway(OldMap(c));
  }

  // ----- renaming apart -----

  function NameSet(names: seq<string>): set<string>
  {
    set s | s in names
  }

  /** The names given, one after the other, to symbols that are renamed apart from used names. */
  function NamesGiven(names: seq<string>, used: set<string>): (r: seq<string>)
    ensures |r| == |names|
  {
    if names == [] then [] else
    var n := |names| - 1;
    var r := NamesGiven(names[..n], used);
    r + [Fresh("", names[n], used + NameSet(r))]
  }

  function Spells(xs: seq<Sym>): (r: seq<string>)
    ensures |r| == |xs| && forall k :: 0 <= k < |xs| ==> r[k] == Spell(xs[k])
  {
    seq(|xs|, k requires 0 <= k < |xs| => Spell(xs[k]))
  }

  lemma NameSetMore(names: seq<string>, s: string)
    ensures NameSet(names + [s]) == NameSet(names) + {s}
  {
  }

  lemma {:induction false} NamesGivenPrefix(names: seq<string>, used: set<string>, n: nat)
    requires n <= |names|
    ensures NamesGiven(names[..n], used) == NamesGiven(names, used)[..n]
  {
    hide Fresh;
    if n < |names| {
      NamesGivenPrefix(names[..|names| - 1], used, n);
      assert names[..|names| - 1][..n] == names[..n];
    } else {
      assert names[..n] == names;
    }
  }

  /** The name given is new, and is the symbol's own name unless that is used already. */
  lemma NameGiven(names: seq<string>, used: set<string>, k: nat)
    requires k < |names|
    ensures var g := NamesGiven(names, used);
            && g[k] != "" && g[k] !in used && g[k] !in g[..k]
            && (g[k] == names[k] || names[k] == "" || names[k] in used || names[k] in g[..k])
            && (g[k] == names[k] || exists i: nat :: g[k] == Suffixed(names[k], i))
  {
    hide FirstUnused, Suffixed, NamesGiven;
    var g := NamesGiven(names, used);
    var now := names[..k + 1];
    NamesGivenPrefix(names, used, k + 1);
    NamesGivenPrefix(names, used, k);
    assert now[..k] == names[..k] && now[k] == names[k];
    LastGiven(now, used);
    assert g[..k + 1][k] == g[k];
    FreshKind(names[k], used + NameSet(g[..k]));
  }

  lemma LastGiven(names: seq<string>, used: set<string>)
    requires names != []
    ensures var n := |names| - 1;
            NamesGiven(names, used)[n] == Fresh("", names[n], used + NameSet(NamesGiven(names[..n], used)))
  {
    hide Fresh;
  }

  lemma FreshKind(name: string, used: set<string>)
    ensures Fresh("", name, used) != "" && (Fresh("", name, used) == name || name == "" || name in used)
    ensures Fresh("", name, used) == name || exists i: nat :: Fresh("", name, used) == Suffixed(name, i)
  {
    hide FirstUnused;
    assert "" + name == name;
    if Fresh("", name, used) != name {
      var i: nat :| Fresh("", name, used) == Suffixed(name, i);
      assert Suffixed(name, i)[|name|] == '_';
    }
  }

  ghost predicate AllGiven(xs: seq<Sym>, used: set<string>, r: Renamer, g: seq<string>)
  {
    && |g| == |xs| && r.used == used + NameSet(g)
    && forall k :: 0 <= k < |xs| ==> xs[k] in r.m && r.m[xs[k]] == Sym(Skolem, Id(g[k], xs[k].id.arity))
  }

  lemma {:induction false} RenamedAllGiven(xs: seq<Sym>, used: set<string>)
    requires Distinct(xs)
    ensures AllGiven(xs, used, RenameAll("", xs, used), NamesGiven(Spells(xs), used))
  {
    hide Fresh, Apart, Distinct, RenameAll, NamesGiven, AllGiven;
    if xs == [] {
      NoneGiven(used);
    } else {
      var n := |xs| - 1;
      DistinctLast(xs);
      RenamedAllGiven(xs[..n], used);
      RenameAllLast("", xs, used);
      assert Spells(xs)[..n] == Spells(xs[..n]);
      NamesGivenPrefix(Spells(xs), used, n);
      LastGiven(Spells(xs), used);
      var g := NamesGiven(Spells(xs), used);
      GivenUsed(xs[..n], used, RenameAll("", xs[..n], used), g[..n]);
      OneMoreGiven(xs, used, RenameAll("", xs[..n], used), g);
    }
  }

  lemma GivenUsed(xs: seq<Sym>, used: set<string>, r: Renamer, g: seq<string>)
    requires AllGiven(xs, used, r, g)
    ensures r.used == used + NameSet(g)
  {
  }

  lemma OneMoreGiven(xs: seq<Sym>, used: set<string>, r: Renamer, g: seq<string>)
    requires xs != [] && |g| == |xs| && xs[|xs| - 1] !in xs[..|xs| - 1]
    requires AllGiven(xs[..|xs| - 1], used, r, g[..|xs| - 1])
    ensures var x, name := xs[|xs| - 1], g[|xs| - 1];
            AllGiven(xs, used, Renamer(r.m[x := Sym(Skolem, Id(name, x.id.arity))], r.used + {name}), g)
  {
    hide NameSet;
    var n := |xs| - 1;
    assert g == g[..n] + [g[n]];
    NameSetMore(g[..n], g[n]);
    assert forall k :: 0 <= k < n ==> xs[..n][k] == xs[k] && g[..n][k] == g[k] && xs[k] in xs[..n];
  }

  lemma NoneGiven(used: set<string>)
    ensures AllGiven([], used, RenameAll("", [], used), NamesGiven(Spells([]), used))
  {
  }

  /** The existential symbols of clauses, in the order in which they are renamed. */
  function Existentials(c: Clauses): (xs: seq<Sym>)
    ensures forall x :: x in xs <==> x in Used(c) && x.kind.Skolem?
  {
    OrderedUsedSyms(c);
    Skolems(OrderedUsed(c))
  }

  /** The names that the existential symbols of c are given apart from d; only the names in c and d count. */
  function GivenApart(c: Clauses, d: Clauses): (g: seq<string>)
    ensures |g| == |Existentials(c)|
  {
    NamesGiven(Spells(Existentials(c)), UsedNames(d))
  }

  lemma DistinctGiven(c: Clauses, d: Clauses, k: nat)
    requires k < |Existentials(c)|
    ensures var x, g := Existentials(c)[k], GivenApart(c, d);
            x in DistinctMap(c, d) && DistinctMap(c, d)[x] == Sym(Skolem, Id(g[k], x.id.arity)) && Spell(x) == x.id.name
  {
    hide Used, RenameAll, NamesGiven, UsedNames, DistinctMap, Skolems, OrderedUsed, Distinct;
    var xs := Existentials(c);
    assert xs[k] in xs;
    DistinctIsRenameAll(c, d);
    SkolemsOnce(OrderedUsed(c));
    RenamedAllGiven(xs, UsedNames(d));
    InDistinct(c, d);
  }

  lemma DistinctIsRenameAll(c: Clauses, d: Clauses)
    ensures DistinctMap(c, d) == RenameAll("", Skolems(OrderedUsed(c)), UsedNames(d)).m
  {
    hide RenameAll, Used;
  }

  /** Some symbol is given the name, and with its own arity is, a symbol that is renamed after it. */
  predicate Chained(c: Clauses, d: Clauses)
  {
    var xs, g := Existentials(c), GivenApart(c, d);
    exists i, j :: 0 <= i < j < |xs| && g[i] == xs[j].id.name && xs[i].id.arity == xs[j].id.arity
  }

  /** Renaming c apart from d, the order of the entries matters exactly if the name given to one existential symbol of
      c is that of a later one. */
  lemma DistinctIdempotent(c: Clauses, d: Clauses)
    ensures W.Idempotent(DistinctMap(c, d)) <==> !Chained(c, d)
  {
    hide GivenApart, Existentials, Used, DistinctMap;
    var xs, g, m := Existentials(c), GivenApart(c, d), DistinctMap(c, d);
    if i, j :| 0 <= i < j < |xs| && g[i] == xs[j].id.name && xs[i].id.arity == xs[j].id.arity {
      DistinctGiven(c, d, i);
      DistinctGiven(c, d, j);
      GivenNew(c, d, i);
      GivenNew(c, d, j);
      assert xs[j] in xs;
      assert m[xs[i]] == xs[j] && m[xs[j]].id.name != g[i];
    } else {
      forall x | x in m && m[x] in m
        ensures m[m[x]] == m[x]
      {
        NotChained(c, d, x);
      }
    }
  }

  /** What is given to the k-th symbol, in terms of the symbols. */
  lemma GivenNew(c: Clauses, d: Clauses, k: nat)
    requires k < |Existentials(c)|
    ensures var g, name := GivenApart(c, d), Existentials(c)[k].id.name;
            && g[k] != "" && g[k] !in UsedNames(d) && (forall i :: 0 <= i < k ==> g[k] != g[i])
            && (g[k] == name || name == "" || name in UsedNames(d) || exists i :: 0 <= i < k && g[i] == name)
            && (g[k] == name || exists i: nat :: g[k] == Suffixed(name, i))
  {
    hide NamesGiven, Used, Suffixed;
    var xs, g := Existentials(c), GivenApart(c, d);
    assert xs[k] in xs;
    NameGiven(Spells(xs), UsedNames(d), k);
    assert forall i :: 0 <= i < k ==> g[i] in g[..k];
  }

  lemma ChainedAt(c: Clauses, d: Clauses, i: nat, j: nat)
    requires i < |Existentials(c)| && j < |Existentials(c)|
    ensures var xs, g := Existentials(c), GivenApart(c, d);
            i < j && g[i] == xs[j].id.name && xs[i].id.arity == xs[j].id.arity ==> Chained(c, d)
  {
    hide Existentials, GivenApart;
  }

  lemma NotChained(c: Clauses, d: Clauses, x: Sym)
    requires !Chained(c, d) && x in DistinctMap(c, d) && DistinctMap(c, d)[x] in DistinctMap(c, d)
    ensures var m := DistinctMap(c, d); m[m[x]] == m[x]
  {
    hide GivenApart, Used, DistinctMap, Suffixed;
    var xs, g, m := Existentials(c), GivenApart(c, d), DistinctMap(c, d);
    assert x in Used(c) && x.kind.Skolem? && m[x] in Used(c) && m[x].kind.Skolem? by { InDistinct(c, d); }
    var i :| 0 <= i < |xs| && xs[i] == x;
    var j :| 0 <= j < |xs| && xs[j] == m[x];
    hide Existentials;
    DistinctGiven(c, d, i);
    DistinctGiven(c, d, j);
    GivenNew(c, d, i);
    GivenNew(c, d, j);
    ChainedAt(c, d, i, j);
  }

  lemma InDistinct(c: Clauses, d: Clauses)
    ensures forall x :: x in DistinctMap(c, d) <==> x in Used(c) && x.kind.Skolem?
  {
  }

  /** It does not matter if no existential name of c is a later one's name with a suffix. */
  lemma NoSuffixIdempotent(c: Clauses, d: Clauses)
    requires var xs := Existentials(c);
             forall i, j, k: nat :: 0 <= i < j < |xs| ==> xs[j].id.name != Suffixed(xs[i].id.name, k)
    ensures W.Idempotent(DistinctMap(c, d))
  {
    hide GivenApart, Existentials, Used, DistinctMap, Suffixed;
    var xs, g := Existentials(c), GivenApart(c, d);
    DistinctIdempotent(c, d);
    SkolemsDiffer(c);
    forall i, j | 0 <= i < j < |xs|
      ensures !(g[i] == xs[j].id.name && xs[i].id.arity == xs[j].id.arity)
    {
      GivenNew(c, d, i);
    }
  }

  lemma SkolemsDiffer(c: Clauses)
    ensures var xs := Existentials(c);
            forall i, j :: 0 <= i < j < |xs| ==> xs[i].id.name != xs[j].id.name || xs[i].id.arity != xs[j].id.arity
  {
    hide Used;
    var xs := Existentials(c);
    SkolemsOnce(OrderedUsed(c));
    assert forall k :: 0 <= k < |xs| ==> xs[k] in xs;
  }

  // ----- renaming nothing -----

  predicate Fixes(m: Renaming)
  {
    forall x :: x in m ==> m[x] == x
  }

  /** Renaming c apart from d renames nothing exactly if the existential symbols of c have different names, none of
      them empty or used in d. */
  lemma DistinctFixes(c: Clauses, d: Clauses)
    ensures Fixes(DistinctMap(c, d)) <==>
            var xs := Existentials(c);
            && (forall k :: 0 <= k < |xs| ==> xs[k].id.name != "" && xs[k].id.name !in UsedNames(d))
            && forall i, k :: 0 <= i < k < |xs| ==> xs[i].id.name != xs[k].id.name
  {
    hide GivenApart, Used, DistinctMap, Suffixed;
    var xs, g, m := Existentials(c), GivenApart(c, d), DistinctMap(c, d);
    InDistinct(c, d);
    assert forall x :: x in m ==> x in xs;
    if Fixes(m) {
      forall k | 0 <= k < |xs|
        ensures g[k] == xs[k].id.name && g[k] != "" && g[k] !in UsedNames(d) && forall i :: 0 <= i < k ==> g[k] != g[i]
      {
        DistinctGiven(c, d, k);
        GivenNew(c, d, k);
      }
    } else if
      && (forall k :: 0 <= k < |xs| ==> xs[k].id.name != "" && xs[k].id.name !in UsedNames(d))
      && (forall i, k :: 0 <= i < k < |xs| ==> xs[i].id.name != xs[k].id.name)
    {
      AllKept(c, d, |xs|);
      forall x | x in m
        ensures m[x] == x
      {
        var k :| 0 <= k < |xs| && xs[k] == x;
        DistinctGiven(c, d, k);
      }
    }
  }

  lemma {:induction false} AllKept(c: Clauses, d: Clauses, n: nat)
    requires var xs := Existentials(c);
             && n <= |xs|
             && (forall k :: 0 <= k < |xs| ==> xs[k].id.name != "" && xs[k].id.name !in UsedNames(d))
             && forall i, k :: 0 <= i < k < |xs| ==> xs[i].id.name != xs[k].id.name
    ensures forall k :: 0 <= k < n ==> GivenApart(c, d)[k] == Existentials(c)[k].id.name
  {
    hide GivenApart, Existentials, Used, Suffixed;
    if n > 0 {
      AllKept(c, d, n - 1);
      GivenNew(c, d, n - 1);
    }
  }

  // ----- actions whose annotations can be entered in any order -----

  /** In every composition, renaming apart gives no symbol the name of a later one. */
  predicate Unchained(a: Action)
    requires Core(a)
    decreases Size(a), 0
  {
    match a
    case Sequence(es) => UnchainedAll(es)
    case Choice(bs) => UnchainedEach(bs)
    case If(_, thn, els) => Unchained(thn) && Unchained(els)
    case Local(_, body) => Unchained(body)
    case BindOldsAction(inner) => Unchained(inner)
    case IfSome(some, thn, els) =>
      CoreIfPart(some, thn, els);
      Unchained(IfPart(some, thn)) && Unchained(ElsePart(some, els))
    case _ => true
  }

  predicate UnchainedAll(es: seq<Action>)
    requires forall e :: e in es ==> Core(e)
    decreases SizeAll(es), 1
  {
    if es == [] then true else
    var n := |es| - 1;
    var u1, u2 := ComposeAll(es[..n]), IntUpdate(es[n]);
    UnchainedAll(es[..n]) && Unchained(es[n]) && !Chained(u2.tr, u1.tr) && !Chained(u2.pre, u1.tr)
  }

  predicate UnchainedEach(bs: seq<Action>)
    requires forall b :: b in bs ==> Core(b)
    decreases SizeAll(bs), 1
  {
    if bs == [] then true else
    var n := |bs| - 1;
    UnchainedEach(bs[..n]) && Unchained(bs[n])
  }

  predicate OrderlyNotes(n: Notes)
  {
    W.Orderly(n.tr) && W.Orderly(n.pre)
  }

  lemma OrderlyRenamed(n: W.Annot, m: Renaming)
    requires W.Orderly(n) && W.Idempotent(m)
    ensures W.Orderly(Renamed(n, m))
  {
  }

  lemma OrderlyCompose(u1: Update, n1: Notes, u2: Update, n2: Notes)
    requires OrderlyNotes(n1) && OrderlyNotes(n2) && !Chained(u2.tr, u1.tr) && !Chained(u2.pre, u1.tr)
    ensures OrderlyNotes(ComposeNotes(u1, n1, u2, n2))
  {
    hide W.Idempotent, Renamed, Link, And, DiffFrame, OrCond, MidMap, MidNew, MidBase, DistinctMap, Chained;
    MidIdempotent(u1, u2);
    DistinctIdempotent(u2.tr, u1.tr);
    DistinctIdempotent(u2.pre, u1.tr);
    var mm := MidMap(u1, u2);
    OrderlyLink(n1.tr, n2.tr, DistinctMap(u2.tr, u1.tr), u1.mod, mm);
    OrderlyLink(n1.tr, n2.pre, DistinctMap(u2.pre, u1.tr), u1.mod, mm);
    hide LinkNote;
  }

  lemma OrderlyLink(n: W.Annot, n': W.Annot, rd: Renaming, mod: seq<Id>, mm: Renaming)
    requires W.Orderly(n) && W.Orderly(n') && W.Idempotent(rd)
    requires W.Idempotent(MidNew(mod, mm)) && W.Idempotent(MidBase(mod, mm))
    ensures W.Orderly(LinkNote(n, n', rd, mod, mm))
  {
    hide W.Idempotent, Renamed, MidNew, MidBase;
    OrderlyRenamed(n, MidNew(mod, mm));
    OrderlyRenamed(n', rd);
    OrderlyRenamed(Renamed(n', rd), MidBase(mod, mm));
  }

  lemma OrderlyJoin(u1: Update, n1: Notes, u2: Update, n2: Notes, cond: Expr)
    requires OrderlyNotes(n1) && OrderlyNotes(n2)
    ensures OrderlyNotes(JoinNotes(u1, n1, u2, n2)) && OrderlyNotes(SwappedNotes(u1, n1, u2, n2))
    ensures OrderlyNotes(IteNotes(cond, u1, n1, u2, n2))
  {
    hide W.Idempotent, And, DiffFrame, OrCond;
  }

  /** No matter what is compiled, only renaming apart can make the order of entries matter. */
  lemma {:induction false} UnchainedOrderly(a: Action)
    requires Core(a) && Unchained(a)
    ensures OrderlyNotes(NotesOf(a))
    decreases Size(a), 2
  {
    hide OrderlyNotes, Core, IntUpdate, HideMap, OldMap, IfPart, ElsePart, ComposeAll, JoinAll, W.Orderly,
      W.Idempotent, SequenceNotes, ChoiceNotes, UnchainedAll, UnchainedEach, IteNotes, SwappedNotes;
    UnchainedParts(a);
    match a
    case Sequence(es) => UnchainedSequence(es);
    case Choice(bs) => UnchainedChoice(bs);
    case If(c, thn, els) =>
      UnchainedOrderly(thn); UnchainedOrderly(els);
      OrderlyJoin(IntUpdate(thn), NotesOf(thn), IntUpdate(els), NotesOf(els), c);
    case Local(xs, body) =>
      UnchainedOrderly(body);
      OrderlyHidden(xs, IntUpdate(body), NotesOf(body));
    case BindOldsAction(inner) =>
      UnchainedOrderly(inner);
      OrderlyHidden([], IntUpdate(inner), NotesOf(inner));
    case IfSome(some, thn, els) =>
      var p, q := IfPart(some, thn), ElsePart(some, els);
      UnchainedOrderly(p); UnchainedOrderly(q);
      OrderlyJoin(IntUpdate(p), NotesOf(p), IntUpdate(q), NotesOf(q), Lit(0));
    case _ => OrderlyNothing();
  }

  lemma UnchainedParts(a: Action)
    requires Core(a) && Unchained(a)
    ensures a.Sequence? ==> (forall e :: e in a.elems ==> Core(e)) && UnchainedAll(a.elems)
    ensures a.Choice? ==> (forall b :: b in a.branches ==> Core(b)) && UnchainedEach(a.branches)
    ensures a.If? ==> Core(a.thn) && Core(a.els)
    ensures a.Local? ==> Core(a.body)
    ensures a.BindOldsAction? ==> Core(a.inner)
    ensures a.IfSome? ==>
              && Core(IfPart(a.some, a.thn)) && Core(ElsePart(a.some, a.els))
              && Size(IfPart(a.some, a.thn)) < Size(a) && Size(ElsePart(a.some, a.els)) < Size(a)
              && Unchained(IfPart(a.some, a.thn)) && Unchained(ElsePart(a.some, a.els))
  {
    hide UnchainedAll, UnchainedEach;
    if a.IfSome? { CoreIfPart(a.some, a.thn, a.els); }
  }

  lemma OrderlyNothing()
    ensures OrderlyNotes(NO_NOTES)
  {
  }

  lemma OrderlyHidden(xs: seq<Id>, u: Update, n: Notes)
    requires OrderlyNotes(n)
    ensures OrderlyNotes(Notes(Renamed(n.tr, HideMap(xs, u.mod, u.tr)), Renamed(n.pre, HideMap(xs, u.mod, u.pre))))
    ensures OrderlyNotes(Notes(Renamed(n.tr, OldMap(u.tr)), Renamed(n.pre, OldMap(u.pre))))
  {
    hide HideMap, OldMap, W.Idempotent, Renamed;
    HideIdempotent(xs, u.mod, u.tr);
    HideIdempotent(xs, u.mod, u.pre);
    OldIdempotent(u.tr);
    OldIdempotent(u.pre);
    OrderlyRenamed(n.tr, HideMap(xs, u.mod, u.tr));
    OrderlyRenamed(n.pre, HideMap(xs, u.mod, u.pre));
    OrderlyRenamed(n.tr, OldMap(u.tr));
    OrderlyRenamed(n.pre, OldMap(u.pre));
  }

  lemma {:induction false} UnchainedSequence(es: seq<Action>)
    requires (forall e :: e in es ==> Core(e)) && UnchainedAll(es)
    ensures OrderlyNotes(SequenceNotes(es))
    decreases SizeAll(es), 3
  {
    hide OrderlyNotes, Core, IntUpdate, NotesOf, ComposeNotes, Chained, Unchained, ComposeAll;
    if es == [] {
      OrderlyNothing();
    } else {
      var n := |es| - 1;
      UnchainedSequence(es[..n]);
      UnchainedOrderly(es[n]);
      OrderlyCompose(ComposeAll(es[..n]), SequenceNotes(es[..n]), IntUpdate(es[n]), NotesOf(es[n]));
    }
  }

  lemma {:induction false} UnchainedChoice(bs: seq<Action>)
    requires (forall b :: b in bs ==> Core(b)) && UnchainedEach(bs)
    ensures OrderlyNotes(ChoiceNotes(bs))
    decreases SizeAll(bs), 3
  {
    hide OrderlyNotes, Core, IntUpdate, NotesOf, JoinNotes, Unchained, JoinAll;
    if bs == [] {
      OrderlyNothing();
    } else {
      var n := |bs| - 1;
      UnchainedChoice(bs[..n]);
      UnchainedOrderly(bs[n]);
      OrderlyJoin(JoinAll(bs[..n]), ChoiceNotes(bs[..n]), IntUpdate(bs[n]), NotesOf(bs[n]), Lit(0));
    }
  }

  // ----- actions whose negated flags are not moved -----

  /** The action has no "if some", so that its annotation asks for no negated flag. */
  predicate NoSome(a: Action)
  {
    match a
    case Sequence(es) => forall e :: e in es ==> NoSome(e)
    case Choice(bs) => forall b :: b in bs ==> NoSome(b)
    case If(_, thn, els) => NoSome(thn) && NoSome(els)
    case Local(_, body) => NoSome(body)
    case BindOldsAction(inner) => NoSome(inner)
    case IfSome(_, _, _) => false
    case _ => true
  }

  /** Nothing is renamed apart around an "if some". */
  predicate Unmoved(a: Action)
    requires Core(a)
    decreases Size(a), 0
  {
    match a
    case Sequence(es) => UnmovedAll(es)
    case Choice(bs) => UnmovedEach(bs)
    case If(_, thn, els) => Unmoved(thn) && Unmoved(els)
    case Local(_, body) => Unmoved(body)
    case BindOldsAction(inner) => Unmoved(inner)
    case IfSome(some, thn, els) =>
      CoreIfPart(some, thn, els);
      Unmoved(IfPart(some, thn)) && Unmoved(ElsePart(some, els))
    case _ => true
  }

  predicate UnmovedAll(es: seq<Action>)
    requires forall e :: e in es ==> Core(e)
    decreases SizeAll(es), 1
  {
    if es == [] then true else
    var n := |es| - 1;
    var u1, u2 := ComposeAll(es[..n]), IntUpdate(es[n]);
    && UnmovedAll(es[..n]) && Unmoved(es[n])
    && (NoSome(es[n]) || (Fixes(DistinctMap(u2.tr, u1.tr)) && Fixes(DistinctMap(u2.pre, u1.tr))))
  }

  predicate UnmovedEach(bs: seq<Action>)
    requires forall b :: b in bs ==> Core(b)
    decreases SizeAll(bs), 1
  {
    if bs == [] then true else
    var n := |bs| - 1;
    UnmovedEach(bs[..n]) && Unmoved(bs[n])
  }

  /** The existential symbols are called what they are. */
  ghost predicate Still(scope: Renaming)
  {
    forall x: Sym :: x.kind.Skolem? ==> Lookup(scope, x) == x
  }

  predicate SteadyNotes(n: Notes, scope: Renaming)
  {
    W.Steadfast(n.tr, scope) && W.Steadfast(n.pre, scope)
  }

  ghost predicate Steady(a: Action, scope: Renaming)
    requires Core(a)
  {
    NoSome(a) || (Unmoved(a) && Still(scope))
  }

  lemma StillProgram(scope: Renaming, m: Renaming)
    requires Still(scope) && OfProgram(m)
    ensures Still(W.Entered(scope, m))
  {
    hide Lookup;
    forall x: Sym | x.kind.Skolem?
      ensures Lookup(W.Entered(scope, m), x) == x
    {
      W.EnteredGet(scope, m, x);
      LookupOut(m, x);
    }
  }

  lemma StillFixed(scope: Renaming, m: Renaming)
    requires Still(scope) && Fixes(m)
    ensures Still(W.Entered(scope, m))
  {
    hide Lookup;
    forall x: Sym | x.kind.Skolem?
      ensures Lookup(W.Entered(scope, m), x) == x
    {
      W.EnteredGet(scope, m, x);
      W.LookupEither(m, x);
    }
  }

  lemma SteadfastRenamed(n: W.Annot, m: Renaming, scope: Renaming)
    requires W.Steadfast(n, W.Entered(scope, m))
    ensures W.Steadfast(Renamed(n, m), scope)
  {
    if m == map[] { EnteredNothing(scope); }
  }

  lemma SteadyLink(n: W.Annot, n': W.Annot, rd: Renaming, mod: seq<Id>, mm: Renaming, scope: Renaming)
    requires W.Steadfast(n, W.Entered(scope, MidNew(mod, mm)))
    requires W.Steadfast(n', W.Entered(W.Entered(scope, MidBase(mod, mm)), rd))
    ensures W.Steadfast(LinkNote(n, n', rd, mod, mm), scope)
  {
    hide Renamed, MidNew, MidBase, W.Entered;
    SteadfastRenamed(n, MidNew(mod, mm), scope);
    SteadfastRenamed(n', rd, W.Entered(scope, MidBase(mod, mm)));
    SteadfastRenamed(Renamed(n', rd), MidBase(mod, mm), scope);
  }

  lemma SteadyCompose(u1: Update, n1: Notes, u2: Update, n2: Notes, scope: Renaming)
    requires var mm := MidMap(u1, u2);
             var behind := W.Entered(scope, MidBase(u1.mod, mm));
             && W.Steadfast(n1.tr, W.Entered(scope, MidNew(u1.mod, mm))) && W.Steadfast(n1.pre, scope)
             && W.Steadfast(n2.tr, W.Entered(behind, DistinctMap(u2.tr, u1.tr)))
             && W.Steadfast(n2.pre, W.Entered(behind, DistinctMap(u2.pre, u1.tr)))
    ensures SteadyNotes(ComposeNotes(u1, n1, u2, n2), scope)
  {
    hide Link, And, DiffFrame, MidMap, MidNew, MidBase, DistinctMap, LinkNote, W.Entered, IsFalse;
    var mm := MidMap(u1, u2);
    SteadyLink(n1.tr, n2.tr, DistinctMap(u2.tr, u1.tr), u1.mod, mm, scope);
    SteadyLink(n1.tr, n2.pre, DistinctMap(u2.pre, u1.tr), u1.mod, mm, scope);
  }

  lemma SteadyJoin(u1: Update, n1: Notes, u2: Update, n2: Notes, cond: Expr, scope: Renaming)
    requires SteadyNotes(n1, scope) && SteadyNotes(n2, scope)
    ensures SteadyNotes(JoinNotes(u1, n1, u2, n2), scope) && SteadyNotes(IteNotes(cond, u1, n1, u2, n2), scope)
    ensures Still(scope) ==> SteadyNotes(SwappedNotes(u1, n1, u2, n2), scope)
  {
    hide And, DiffFrame, IsFalse, UsedNames, SymNames;
  }

  /** If nothing is renamed apart around an "if some", no renaming above a negated flag moves it. */
  lemma {:induction false} UnmovedSteadfast(a: Action, scope: Renaming)
    requires Core(a) && Steady(a, scope)
    ensures SteadyNotes(NotesOf(a), scope)
    decreases Size(a), 2
  {
    hide SteadyNotes, Core, IntUpdate, HideMap, OldMap, IfPart, ElsePart, ComposeAll, JoinAll, SequenceNotes,
      ChoiceNotes, UnmovedAll, UnmovedEach, IteNotes, SwappedNotes, Steady, Still;
    UnmovedParts(a, scope);
    match a
    case Sequence(es) => UnmovedSequence(es, scope);
    case Choice(bs) => UnmovedChoice(bs, scope);
    case If(c, thn, els) =>
      UnmovedSteadfast(thn, scope); UnmovedSteadfast(els, scope);
      SteadyJoin(IntUpdate(thn), NotesOf(thn), IntUpdate(els), NotesOf(els), c, scope);
    case Local(xs, body) =>
      var u := IntUpdate(body);
      UnmovedInside(body, scope, HideMap(xs, u.mod, u.tr), HideMap(xs, u.mod, u.pre)) by {
        MapsOfProgram(xs, u.mod, u.tr); MapsOfProgram(xs, u.mod, u.pre);
      }
    case BindOldsAction(inner) =>
      var u := IntUpdate(inner);
      UnmovedInside(inner, scope, OldMap(u.tr), OldMap(u.pre)) by {
        MapsOfProgram([], u.mod, u.tr); MapsOfProgram([], u.mod, u.pre);
      }
    case IfSome(some, thn, els) =>
      var p, q := IfPart(some, thn), ElsePart(some, els);
      UnmovedSteadfast(p, scope); UnmovedSteadfast(q, scope);
      SteadyJoin(IntUpdate(p), NotesOf(p), IntUpdate(q), NotesOf(q), Lit(0), scope);
    case _ => SteadyNothing(scope);
  }

  lemma SteadyNothing(scope: Renaming)
    ensures SteadyNotes(NO_NOTES, scope)
  {
  }

  lemma UnmovedParts(a: Action, scope: Renaming)
    requires Core(a) && Steady(a, scope)
    ensures a.Sequence? ==> (forall e :: e in a.elems ==> Core(e)) && SteadyAll(a.elems, scope)
    ensures a.Choice? ==> (forall b :: b in a.branches ==> Core(b)) && SteadyEach(a.branches, scope)
    ensures a.If? ==> Core(a.thn) && Core(a.els) && Steady(a.thn, scope) && Steady(a.els, scope)
    ensures a.Local? ==> Core(a.body) && Steady(a.body, scope)
    ensures a.BindOldsAction? ==> Core(a.inner) && Steady(a.inner, scope)
    ensures a.IfSome? ==>
              && Core(IfPart(a.some, a.thn)) && Core(ElsePart(a.some, a.els)) && Still(scope)
              && Size(IfPart(a.some, a.thn)) < Size(a) && Size(ElsePart(a.some, a.els)) < Size(a)
              && Steady(IfPart(a.some, a.thn), scope) && Steady(ElsePart(a.some, a.els), scope)
  {
    hide UnmovedAll, UnmovedEach, Still;
    if a.IfSome? { CoreIfPart(a.some, a.thn, a.els); }
  }

  ghost predicate SteadyAll(es: seq<Action>, scope: Renaming)
    requires forall e :: e in es ==> Core(e)
  {
    (forall e :: e in es ==> NoSome(e)) || (UnmovedAll(es) && Still(scope))
  }

  ghost predicate SteadyEach(bs: seq<Action>, scope: Renaming)
    requires forall b :: b in bs ==> Core(b)
  {
    (forall b :: b in bs ==> NoSome(b)) || (UnmovedEach(bs) && Still(scope))
  }

  /** Inside renamings of program symbols. */
  lemma {:induction false} UnmovedInside(a: Action, scope: Renaming, m: Renaming, m': Renaming)
    requires Core(a) && Steady(a, scope) && OfProgram(m) && OfProgram(m')
    ensures SteadyNotes(Notes(Renamed(NotesOf(a).tr, m), Renamed(NotesOf(a).pre, m')), scope)
    decreases Size(a), 3
  {
    hide Core, NotesOf, Renamed, Still, W.Entered, OfProgram, Unmoved;
    if Still(scope) {
      StillProgram(scope, m);
      StillProgram(scope, m');
    }
    UnmovedSteadfast(a, W.Entered(scope, m));
    UnmovedSteadfast(a, W.Entered(scope, m'));
    SteadfastRenamed(NotesOf(a).tr, m, scope);
    SteadfastRenamed(NotesOf(a).pre, m', scope);
  }

  lemma {:induction false} UnmovedSequence(es: seq<Action>, scope: Renaming)
    requires (forall e :: e in es ==> Core(e)) && SteadyAll(es, scope)
    ensures SteadyNotes(SequenceNotes(es), scope)
    decreases SizeAll(es), 4
  {
    hide Core, IntUpdate, NotesOf, ComposeNotes, DistinctMap, ComposeAll, W.Entered, Still, Fixes, MidNew, MidBase,
      MidMap, SteadyAll, Steady, W.Steadfast;
    if es == [] {
      SteadyNothing(scope);
    } else {
      var n := |es| - 1;
      var u1, u2 := ComposeAll(es[..n]), IntUpdate(es[n]);
      var mm := MidMap(u1, u2);
      var behind := W.Entered(scope, MidBase(u1.mod, mm));
      SteadySplit(es, scope, mm);
      UnmovedSequence(es[..n], scope);
      UnmovedSequence(es[..n], W.Entered(scope, MidNew(u1.mod, mm)));
      UnmovedSteadfast(es[n], W.Entered(behind, DistinctMap(u2.tr, u1.tr)));
      UnmovedSteadfast(es[n], W.Entered(behind, DistinctMap(u2.pre, u1.tr)));
      SteadyCompose(u1, SequenceNotes(es[..n]), u2, NotesOf(es[n]), scope);
    }
  }

  lemma SteadySplit(es: seq<Action>, scope: Renaming, mm: Renaming)
    requires es != [] && (forall e :: e in es ==> Core(e)) && SteadyAll(es, scope)
    ensures var n := |es| - 1;
            var u1, u2 := ComposeAll(es[..n]), IntUpdate(es[n]);
            var behind := W.Entered(scope, MidBase(u1.mod, mm));
            && SteadyAll(es[..n], scope) && SteadyAll(es[..n], W.Entered(scope, MidNew(u1.mod, mm)))
            && Steady(es[n], W.Entered(behind, DistinctMap(u2.tr, u1.tr)))
            && Steady(es[n], W.Entered(behind, DistinctMap(u2.pre, u1.tr)))
  {
    hide Core, IntUpdate, DistinctMap, ComposeAll, W.Entered, Still, Fixes, MidNew, MidBase, Unmoved, NoSome;
    var n := |es| - 1;
    var u1, u2 := ComposeAll(es[..n]), IntUpdate(es[n]);
    var behind := W.Entered(scope, MidBase(u1.mod, mm));
    MidOfProgram(u1.mod, mm);
    if Still(scope) {
      StillProgram(scope, MidNew(u1.mod, mm));
      StillProgram(scope, MidBase(u1.mod, mm));
      if Fixes(DistinctMap(u2.tr, u1.tr)) { StillFixed(behind, DistinctMap(u2.tr, u1.tr)); }
      if Fixes(DistinctMap(u2.pre, u1.tr)) { StillFixed(behind, DistinctMap(u2.pre, u1.tr)); }
    }
  }

  lemma {:induction false} UnmovedChoice(bs: seq<Action>, scope: Renaming)
    requires (forall b :: b in bs ==> Core(b)) && SteadyEach(bs, scope)
    ensures SteadyNotes(ChoiceNotes(bs), scope)
    decreases SizeAll(bs), 4
  {
    hide Core, IntUpdate, NotesOf, JoinNotes, JoinAll, Still, SteadyNotes, Unmoved, NoSome;
    if bs == [] {
      SteadyNothing(scope);
    } else {
      var n := |bs| - 1;
      assert bs[n] in bs;
      UnmovedChoice(bs[..n], scope);
      UnmovedSteadfast(bs[n], scope);
      SteadyJoin(JoinAll(bs[..n]), ChoiceNotes(bs[..n]), IntUpdate(bs[n]), NotesOf(bs[n]), Lit(0), scope);
    }
  }

  // ----- the walk of a compiled action -----

  lemma StillEmpty()
    ensures Still(map[])
  {
  }

  /** Where renaming apart gives no symbol the name of a later one, and renames nothing around an "if some", every
      walk with the answers of a valuation of the transition formula hands over a run that it describes. */
  lemma CompiledWalked(a: Action, v: Val, o: State, s: State, t: State, mod: W.Callees, r: W.Walked)
    requires Core(a) && PlainAction(a) && Unchained(a) && (NoSome(a) || Unmoved(a)) && Moves(IntUpdate(a), v, o, s, t)
    requires W.Walks(Shape(a), NotesOf(a).tr, map[], -1, Answers(v), mod, r)
    ensures !r.misfit && !r.gaveUp && Traced(a, W.Events(r.log), o, s, t) && Exec(a, o, s, t)
  {
    hide Core, PlainAction, Unchained, NoSome, Unmoved, Moves, IntUpdate, NotesOf, W.Walks, W.Fair, W.Settled,
      W.Orderly, W.Ordered, W.Steadfast, Traced, Exec;
    StillEmpty();
    UnchainedOrderly(a);
    W.OrderlyOrdered(NotesOf(a).tr, map[], Answers(v));
    W.OrderedSettled(NotesOf(a).tr, map[], Answers(v));
    UnmovedSteadfast(a, map[]);
    W.SteadfastFair(NotesOf(a).tr, map[], Answers(v));
    TransitionWalked(a, v, o, s, t, mod, r);
  }

  /** And with those of a valuation of the failing condition, a run that ends in a false assertion. */
  lemma CompiledFailureWalked(a: Action, v: Val, o: State, s: State, t: State, mod: W.Callees, r: W.Walked)
    requires Core(a) && PlainAction(a) && Unchained(a) && (NoSome(a) || Unmoved(a)) && Breaks(IntUpdate(a), v, o, s, t)
    requires W.Walks(Shape(a), NotesOf(a).pre, map[], -1, Answers(v), mod, r)
    ensures !r.misfit && !r.gaveUp && FailTraced(a, W.Events(r.log), o, s) && Aborts(a, o, s)
  {
    hide Core, PlainAction, Unchained, NoSome, Unmoved, Breaks, IntUpdate, NotesOf, W.Walks, W.Fair, W.Settled,
      W.Orderly, W.Ordered, W.Steadfast, FailTraced, Aborts;
    StillEmpty();
    UnchainedOrderly(a);
    W.OrderlyOrdered(NotesOf(a).pre, map[], Answers(v));
    W.OrderedSettled(NotesOf(a).pre, map[], Answers(v));
    UnmovedSteadfast(a, map[]);
    W.SteadfastFair(NotesOf(a).pre, map[], Answers(v));
    FailureWalked(a, v, o, s, t, mod, r);
  }
}
