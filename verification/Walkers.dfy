/**
 Reading a satisfying assignment back as a program trace.  The transition formula of an action carries an
 annotation with the shape of the action; the walker goes through both, asks the assignment about every
 condition, and hands the actions it passes to a handler.
 */
module Walkers {

  import opened Options
  import opened Logic
  import A = Actions

  /** What a conditional annotation asks the assignment: a fixed answer, a flag, or a negated flag. */
  datatype Cond = Fixed(b: bool) | On(x: Sym) | Off(x: Sym)

  datatype Annot =
    | Empty
    | Conj(left: Annot, right: Annot)
    | Compose(left: Annot, right: Annot)
    | Rename(arg: Annot, m: Renaming)
    | Branch(cond: Cond, thn: Annot, els: Annot)

  /** Actions as far as the walker tells them apart.  A loop stands for its expansion. */
  datatype Action =
    | Leaf(act: A.Action)
    | Return
    | Ignore
    | Seq(elems: seq<Action>)
    | If(some: bool, thn: Action, els: Option<Action>)
    | Choice(branches: seq<Action>)
    | Call(name: string)
    | While(expanded: Action)
    | Local(body: Action)
    | Fail(inner: Action)

  /** What the handler is told. */
  datatype Event = Handle(a: Action) | DoReturn | Failed

  type Env = Renaming

  /** An event and the environment that is handed over with it. */
  datatype Told = Told(event: Event, env: Env)

  function Events(log: seq<Told>): (es: seq<Event>)
    ensures |es| == |log| && forall k :: 0 <= k < |log| ==> es[k] == log[k].event
  {
    seq(|log|, k requires 0 <= k < |log| => log[k].event)
  }

  lemma EventsBoth(x: seq<Told>, y: seq<Told>)
    ensures Events(x + y) == Events(x) + Events(y)
  {
  }

  type Callees = map<string, Action>

  /** The answer to a condition.  Only a flag itself is looked up in the environment. */
  predicate Ask(eval: Sym -> bool, env: Env, c: Cond)
  {
    match c
    case Fixed(b) => b
    case On(x) => eval(Lookup(env, x))
    case Off(x) => !eval(x)
  }

  function RenameCond(m: Renaming, c: Cond): Cond
  {
    if c.On? then On(Lookup(m, c.x)) else c
  }

  // ----- why the walk ends -----

  function Size(n: Annot): nat
  {
    match n
    case Empty => 1
    case Conj(l, r) => 1 + Size(l) + Size(r)
    case Compose(l, r) => 1 + Size(l) + Size(r)
    case Rename(a, _) => 1 + Size(a)
    case Branch(_, t, e) => 1 + Size(t) + Size(e)
  }

  /** The wrappers that are passed without using up annotation. */
  function Weight(a: Action): nat
  {
    match a
    case Call(_) => 1
    case While(x) => 1 + Weight(x)
    case Local(b) => 1 + Weight(b)
    case Fail(x) => 1 + Weight(x)
    case _ => 0
  }

  datatype AnnotBranch = AnnotBranch(cond: Cond, ann: Annot)

  /** The branches of nested conditional annotations, the outermost last. */
  function UniteAnnot(n: Annot): (r: seq<AnnotBranch>)
    ensures forall k :: 0 <= k < |r| ==> Size(r[k].ann) < Size(n)
  {
    match n
    case Rename(a, m) => RenameBranches(UniteAnnot(a), m)
    case Branch(c, t, e) => UniteAnnot(e) + [AnnotBranch(c, t)]
    case _ => []
  }

  function RenameBranches(bs: seq<AnnotBranch>, m: Renaming): (r: seq<AnnotBranch>)
    ensures |r| == |bs|
    ensures forall k :: 0 <= k < |bs| ==> r[k] == AnnotBranch(RenameCond(m, bs[k].cond), Rename(bs[k].ann, m))
  {
    seq(|bs|, k requires 0 <= k < |bs| => AnnotBranch(RenameCond(m, bs[k].cond), Rename(bs[k].ann, m)))
  }

  // ----- the walk as it is done -----

  /** What was handed over, the environment left behind, whether an annotation did not fit, and whether the
      walk was given up because no branch was taken. */
  datatype Walked = Walked(log: seq<Told>, env: Env, misfit: bool, gaveUp: bool)

  /** The entries of a renaming, looked up in the environment. */
  function Entered(env: Env, m: Renaming): Env
  {
    env + map x | x in m :: Lookup(env, m[x])
  }

  /** Entries that were there before are put back; others stay. */
  function Restored(env: Env, before: Env, m: Renaming): Env
  {
    env + map x | x in m && x in before :: before[x]
  }

  /** A branch of "if some" has an assumption in front. */
  function Wrapped(some: bool, a: Action): Action
  {
    if some then Seq([Leaf(A.Assume(Lit(1))), a]) else a
  }

  /** The last branch whose condition is true, or the number of branches. */
  function LastTrue(bs: seq<AnnotBranch>, env: Env, eval: Sym -> bool): (k: nat)
    ensures k <= |bs|
    ensures k < |bs| ==> Ask(eval, env, bs[k].cond)
  {
    if bs == [] then 0 else
    var n := |bs| - 1;
    if Ask(eval, env, bs[n].cond) then n else
    var k := LastTrue(bs[..n], env, eval);
    if k == n then |bs| else k
  }

  /** How many actions of a sequence are meant; a negative position means all of them. */
  function Position(a: Action, pos: int): (p: nat)
    requires a.Seq?
    ensures p <= |a.elems|
  {
    if pos < 0 || pos > |a.elems| then |a.elems| else pos
  }

  /** A renaming entered entry by entry, in the given order. */
  function EnterEach(env: Env, m: Renaming, order: seq<Sym>): Env
    requires forall x :: x in order ==> x in m
  {
    if order == [] then env else
    var n := |order| - 1;
    var now := EnterEach(env, m, order[..n]);
    now[order[n] := Lookup(now, m[order[n]])]
  }

  function Elements(order: seq<Sym>): set<Sym>
  {
    set x | x in order
  }

  predicate Once(order: seq<Sym>)
  {
    forall i, j :: 0 <= i < j < |order| ==> order[i] != order[j]
  }

  /** Every entry comes once. */
  predicate OrderOf(order: seq<Sym>, m: Renaming)
  {
    Elements(order) == m.Keys && Once(order)
  }

  /** The walk leaves a renaming. */
  function Outside(r: Walked, env: Env, m: Renaming): Walked
  {
    if r.gaveUp then r else r.(env := Restored(r.env, env, m))
  }

  /** One walk after the other. */
  function Then(l: Walked, q: Walked): Walked
  {
    Walked(l.log + q.log, q.env, l.misfit || q.misfit, q.gaveUp)
  }

  /** What the walk may do.  A renaming is entered entry by entry, in no particular order, and an entry is looked
      up in the environment that the entries before it have changed. */
  ghost predicate Walks(a: Action, n: Annot, env: Env, pos: int, eval: Sym -> bool, mod: Callees, r: Walked)
    decreases Size(n), Weight(a)
  {
    if n.Rename? then
      exists order: seq<Sym>, inner: Walked ::
        && OrderOf(order, n.m) && Walks(a, n.arg, EnterEach(env, n.m, order), pos, eval, mod, inner)
        && r == Outside(inner, env, n.m)
    else
    match a
    case Seq(es) =>
      var p := Position(a, pos);
      if p == 0 then r == Walked([], env, n != Empty, false)
      else if n.Branch? then
        if Ask(eval, env, n.cond) then Walks(a, n.thn, env, p, eval, mod, r)
        else Walks(a, n.els, env, p - 1, eval, mod, r)
      else if n.Compose? then
        exists l: Walked :: Walks(a, n.left, env, p - 1, eval, mod, l) &&
          if l.gaveUp then r == l else
          exists q: Walked :: Walks(es[p - 1], n.right, l.env, -1, eval, mod, q) && r == Then(l, q)
      else r == Walked([], env, true, false)
    case If(some, thn, els) =>
      if !n.Branch? then r == Walked([], env, true, false)
      else if Ask(eval, env, n.cond) then Walks(Wrapped(some, thn), n.thn, env, -1, eval, mod, r)
      else if els.Some? then Walks(Wrapped(some, els.value), n.els, env, -1, eval, mod, r)
      else r == Walked([], env, false, false)
    case Choice(bs) =>
      if !n.Branch? then r == Walked([], env, true, false) else
      var ns := UniteAnnot(n);
      if |ns| != |bs| then r == Walked([], env, true, false) else
      var k := LastTrue(ns, env, eval);
      if k == |ns| then r == Walked([], env, false, true) else Walks(bs[k], ns[k].ann, env, -1, eval, mod, r)
    case Call(name) =>
      if name !in mod then r == Walked([Told(Handle(a), env)], env, false, false) else
      exists q: Walked :: Walks(Seq([Ignore, mod[name], Return]), n, env, -1, eval, mod, q)
        && r == q.(log := [Told(Handle(a), env)] + q.log)
    case While(x) => Walks(x, n, env, -1, eval, mod, r)
    case Local(b) => Walks(b, n, env, -1, eval, mod, r)
    case Fail(x) =>
      exists q: Walked :: Walks(x, n, env, -1, eval, mod, q)
        && r == if q.gaveUp then q else q.(log := q.log + [Told(Failed, map[])])
    case Return => r == Walked([Told(DoReturn, env)], env, false, false)
    case Ignore => r == Walked([], env, false, false)
    case Leaf(_) => r == Walked([Told(Handle(a), env)], env, false, false)
  }

  // ----- the walk as it is meant -----

  /** The actions passed and the scopes they are in, when renamings have lexical scope; none when the annotation
      does not fit.  With stops, the path may end in an action that fails; what comes before it in a sequence does
      not. */
  function Denote(a: Action, n: Annot, scope: Env, pos: int, stops: bool, eval: Sym -> bool, mod: Callees):
    Option<seq<Told>>
    decreases Size(n), Weight(a), 1
  {
    if n.Rename? then Denote(a, n.arg, Entered(scope, n.m), pos, stops, eval, mod)
    else
    match a
    case Seq(es) =>
      var p := Position(a, pos);
      if p == 0 then (if n == Empty then Some([]) else None)
      else if n.Branch? then
        if !stops then None
        else if Ask(eval, scope, n.cond) then Denote(a, n.thn, scope, p, stops, eval, mod)
        else Denote(a, n.els, scope, p - 1, stops, eval, mod)
      else if n.Compose? then
        var r := Denote(a, n.left, scope, p - 1, false, eval, mod);
        var q := Denote(es[p - 1], n.right, scope, -1, stops, eval, mod);
        if r.Some? && q.Some? then Some(r.value + q.value) else None
      else None
    case If(some, thn, els) =>
      if !n.Branch? then None
      else if Ask(eval, scope, n.cond) then Denote(Wrapped(some, thn), n.thn, scope, -1, stops, eval, mod)
      else if els.Some? then Denote(Wrapped(some, els.value), n.els, scope, -1, stops, eval, mod)
      else Some([])
    case Choice(bs) => if n.Branch? && Arms(n) == |bs| then DenoteChoice(bs, n, scope, stops, eval, mod) else None
    case Call(name) =>
      if name !in mod then Some([Told(Handle(a), scope)]) else
      var r := Denote(Seq([Ignore, mod[name], Return]), n, scope, -1, stops, eval, mod);
      if r.Some? then Some([Told(Handle(a), scope)] + r.value) else None
    case While(x) => Denote(x, n, scope, -1, stops, eval, mod)
    case Local(b) => Denote(b, n, scope, -1, stops, eval, mod)
    case Fail(x) =>
      var r := Denote(x, n, scope, -1, stops, eval, mod);
      if r.Some? then Some(r.value + [Told(Failed, map[])]) else None
    case Return => Some([Told(DoReturn, scope)])
    case Ignore => Some([])
    case Leaf(_) => Some([Told(Handle(a), scope)])
  }

  /** The number of branches of nested conditional annotations. */
  function Arms(n: Annot): nat
  {
    match n
    case Rename(a, _) => Arms(a)
    case Branch(_, _, e) => Arms(e) + 1
    case _ => 0
  }

  /** The outermost true condition picks its branch, counting from the last. */
  function DenoteChoice(bs: seq<Action>, n: Annot, scope: Env, stops: bool, eval: Sym -> bool, mod: Callees):
    Option<seq<Told>>
    requires Arms(n) == |bs|
    decreases Size(n), 0, 0
  {
    match n
    case Rename(a, m) => DenoteChoice(bs, a, Entered(scope, m), stops, eval, mod)
    case Branch(c, t, e) =>
      if Ask(eval, scope, c) then Denote(bs[|bs| - 1], t, scope, -1, stops, eval, mod)
      else DenoteChoice(bs[..|bs| - 1], e, scope, stops, eval, mod)
    case _ => None
  }

  // ----- names bound and asked on the way -----

  /** The names that the renamings on the way enter. */
  function Bound(n: Annot, scope: Env, eval: Sym -> bool): set<Sym>
  {
    match n
    case Empty => {}
    case Conj(l, r) => Bound(l, scope, eval) + Bound(r, scope, eval)
    case Compose(l, r) => Bound(l, scope, eval) + Bound(r, scope, eval)
    case Rename(a, m) => m.Keys + Bound(a, Entered(scope, m), eval)
    case Branch(c, t, e) => if Ask(eval, scope, c) then Bound(t, scope, eval) else Bound(e, scope, eval)
  }

  function Flags(c: Cond): set<Sym> { if c.On? then {c.x} else {} }

  /** The flags that are asked on the way, under the names they have where the annotation is entered. */
  function Asked(n: Annot, scope: Env, eval: Sym -> bool): set<Sym>
  {
    match n
    case Empty => {}
    case Conj(l, r) => Asked(l, scope, eval) + Asked(r, scope, eval)
    case Compose(l, r) => Asked(l, scope, eval) + Asked(r, scope, eval)
    case Rename(a, m) => Image(m, Asked(a, Entered(scope, m), eval))
    case Branch(c, t, e) => Flags(c) + if Ask(eval, scope, c) then Asked(t, scope, eval) else Asked(e, scope, eval)
  }

  /** No renaming on the way is seen after its scope ends: the flags asked later in a sequence are not among
      the names that it entered. */
  predicate Tidy(n: Annot, scope: Env, eval: Sym -> bool)
  {
    match n
    case Empty => true
    case Conj(l, r) => Tidy(l, scope, eval) && Tidy(r, scope, eval)
    case Compose(l, r) =>
      Tidy(l, scope, eval) && Tidy(r, scope, eval) && Bound(l, scope, eval) !! Asked(r, scope, eval)
    case Rename(a, m) => Tidy(a, Entered(scope, m), eval)
    case Branch(c, t, e) => if Ask(eval, scope, c) then Tidy(t, scope, eval) else Tidy(e, scope, eval)
  }

  /** Whether the entry of x is looked up before or after the others does not matter. */
  predicate Steady(m: Renaming, x: Sym)
  {
    x in m && m[x] in m ==> m[m[x]] == m[x]
  }

  /** The order of entries does not matter to the flags that are asked on the way. */
  predicate Settled(n: Annot, scope: Env, eval: Sym -> bool)
  {
    match n
    case Empty => true
    case Conj(l, r) => Settled(l, scope, eval) && Settled(r, scope, eval)
    case Compose(l, r) => Settled(l, scope, eval) && Settled(r, scope, eval)
    case Rename(a, m) =>
      Settled(a, Entered(scope, m), eval) && forall x :: x in Asked(a, Entered(scope, m), eval) ==> Steady(m, x)
    case Branch(c, t, e) => if Ask(eval, scope, c) then Settled(t, scope, eval) else Settled(e, scope, eval)
  }

  /** No entry's value is renamed by another entry. */
  predicate Idempotent(m: Renaming)
  {
    forall x :: x in m && m[x] in m ==> m[m[x]] == m[x]
  }

  /** The order of entries does not matter at all on the way. */
  predicate Ordered(n: Annot, scope: Env, eval: Sym -> bool)
  {
    match n
    case Empty => true
    case Conj(l, r) => Ordered(l, scope, eval) && Ordered(r, scope, eval)
    case Compose(l, r) => Ordered(l, scope, eval) && Ordered(r, scope, eval)
    case Rename(a, m) => Ordered(a, Entered(scope, m), eval) && Idempotent(m)
    case Branch(c, t, e) => if Ask(eval, scope, c) then Ordered(t, scope, eval) else Ordered(e, scope, eval)
  }

  predicate Orderly(n: Annot)
  {
    match n
    case Empty => true
    case Conj(l, r) => Orderly(l) && Orderly(r)
    case Compose(l, r) => Orderly(l) && Orderly(r)
    case Rename(a, m) => Orderly(a) && Idempotent(m)
    case Branch(_, t, e) => Orderly(t) && Orderly(e)
  }

  lemma {:induction false} OrderlyOrdered(n: Annot, scope: Env, eval: Sym -> bool)
    requires Orderly(n)
    ensures Ordered(n, scope, eval)
  {
    hide Idempotent, Ask;
    match n
    case Conj(l, r) => OrderlyOrdered(l, scope, eval); OrderlyOrdered(r, scope, eval);
    case Compose(l, r) => OrderlyOrdered(l, scope, eval); OrderlyOrdered(r, scope, eval);
    case Rename(a, m) => OrderlyOrdered(a, Entered(scope, m), eval);
    case Branch(_, t, e) => OrderlyOrdered(t, scope, eval); OrderlyOrdered(e, scope, eval);
    case _ =>
  }

  lemma {:induction false} OrderedSettled(n: Annot, scope: Env, eval: Sym -> bool)
    requires Ordered(n, scope, eval)
    ensures Settled(n, scope, eval)
  {
    match n
    case Conj(l, r) => OrderedSettled(l, scope, eval); OrderedSettled(r, scope, eval);
    case Compose(l, r) => OrderedSettled(l, scope, eval); OrderedSettled(r, scope, eval);
    case Rename(a, m) => OrderedSettled(a, Entered(scope, m), eval);
    case Branch(c, t, e) =>
      if Ask(eval, scope, c) { OrderedSettled(t, scope, eval); } else { OrderedSettled(e, scope, eval); }
    case _ =>
  }

  // ----- negated flags -----

  /** The answers to the negated flags on the way are those to the flags, although they are not looked up. */
  predicate Fair(n: Annot, scope: Env, eval: Sym -> bool)
  {
    match n
    case Empty => true
    case Conj(l, r) => Fair(l, scope, eval) && Fair(r, scope, eval)
    case Compose(l, r) => Fair(l, scope, eval) && Fair(r, scope, eval)
    case Rename(a, m) => Fair(a, Entered(scope, m), eval)
    case Branch(c, t, e) =>
      && (c.Off? ==> eval(c.x) == eval(Lookup(scope, c.x)))
      && if Ask(eval, scope, c) then Fair(t, scope, eval) else Fair(e, scope, eval)
  }

  /** No renaming above a negated flag moves it. */
  predicate Steadfast(n: Annot, scope: Env)
  {
    match n
    case Empty => true
    case Conj(l, r) => Steadfast(l, scope) && Steadfast(r, scope)
    case Compose(l, r) => Steadfast(l, scope) && Steadfast(r, scope)
    case Rename(a, m) => Steadfast(a, Entered(scope, m))
    case Branch(c, t, e) => (c.Off? ==> Lookup(scope, c.x) == c.x) && Steadfast(t, scope) && Steadfast(e, scope)
  }

  lemma {:induction false} SteadfastFair(n: Annot, scope: Env, eval: Sym -> bool)
    requires Steadfast(n, scope)
    ensures Fair(n, scope, eval)
  {
    hide Ask, Lookup;
    match n
    case Conj(l, r) => SteadfastFair(l, scope, eval); SteadfastFair(r, scope, eval);
    case Compose(l, r) => SteadfastFair(l, scope, eval); SteadfastFair(r, scope, eval);
    case Rename(a, m) => SteadfastFair(a, Entered(scope, m), eval);
    case Branch(_, t, e) => SteadfastFair(t, scope, eval); SteadfastFair(e, scope, eval);
    case _ =>
  }

  /** Asking for the negated flag is the opposite of asking for the flag, whatever the answers, exactly if the
      environment does not give the flag another name. */
  lemma NegatedExact(env: Env, x: Sym)
    ensures (forall eval: Sym -> bool :: Ask(eval, env, Off(x)) == !Ask(eval, env, On(x))) <==> Lookup(env, x) == x
  {
    var only: Sym -> bool := y => y == x;
    assert Ask(only, env, Off(x)) == false;
  }

  predicate Agree(env: Env, scope: Env, names: set<Sym>)
  {
    forall x :: x in names ==> Lookup(env, x) == Lookup(scope, x)
  }

  /** The environment has grown by some of the names, and otherwise is as before. */
  predicate Grown(before: Env, after: Env, names: set<Sym>)
  {
    && (forall x :: x in before ==> x in after && after[x] == before[x])
    && (forall x :: x in after ==> x in before || x in names)
  }

  /** The walk did what is meant. */
  predicate Faithful(r: Walked, env: Env, names: set<Sym>, es: seq<Told>)
  {
    !r.misfit && !r.gaveUp && Events(r.log) == Events(es) && Grown(env, r.env, names)
  }

  /** An entry that does not depend on the order is looked up in the environment at hand. */
  lemma {:induction false} EnterEachGet(env: Env, m: Renaming, order: seq<Sym>, x: Sym)
    requires (forall y :: y in order ==> y in m) && Steady(m, x)
    ensures Lookup(EnterEach(env, m, order), x) == if x in order then Lookup(env, m[x]) else Lookup(env, x)
    decreases |order|, x in m && m[x] != x
  {
    hide Lookup;
    if order != [] {
      var n := |order| - 1;
      assert order == order[..n] + [order[n]];
      var now := EnterEach(env, m, order[..n]);
      if order[n] == x {
        EnterEachGet(env, m, order[..n], m[x]);
        UpdatedGet(now, x, Lookup(now, m[x]), x);
      } else {
        EnterEachGet(env, m, order[..n], x);
        UpdatedGet(now, order[n], Lookup(now, m[order[n]]), x);
      }
    }
  }

  lemma UpdatedGet(env: Env, y: Sym, z: Sym, x: Sym)
    ensures Lookup(env[y := z], x) == if x == y then z else Lookup(env, x)
  {
  }

  lemma EnteredAgree(env: Env, scope: Env, m: Renaming, order: seq<Sym>, names: set<Sym>)
    requires OrderOf(order, m) && (forall x :: x in names ==> Steady(m, x)) && Agree(env, scope, Image(m, names))
    ensures (forall x :: x in order ==> x in m) && Agree(EnterEach(env, m, order), Entered(scope, m), names)
  {
    hide EnterEach, Steady, Once;
    forall x
      ensures x in order <==> x in m
    {
      assert x in Elements(order) <==> x in order;
    }
    forall x | x in names
      ensures Lookup(EnterEach(env, m, order), x) == Lookup(Entered(scope, m), x)
    {
      EnterEachGet(env, m, order, x);
      EnteredGet(scope, m, x);
      assert Lookup(m, x) in Image(m, names);
    }
  }

  lemma EnteredGet(env: Env, m: Renaming, x: Sym)
    ensures Lookup(Entered(env, m), x) == Lookup(env, Lookup(m, x))
  {
  }

  lemma RestoredGrown(env: Env, after: Env, m: Renaming, order: seq<Sym>, names: set<Sym>)
    requires (forall x :: x in order ==> x in m) && Grown(EnterEach(env, m, order), after, names)
    ensures Grown(env, Restored(after, env, m), m.Keys + names)
  {
    hide EnterEach;
    forall x
      ensures x in env ==> x in Restored(after, env, m) && Restored(after, env, m)[x] == env[x]
      ensures x in Restored(after, env, m) ==> x in env || x in m.Keys + names
    {
      EnterEachKeys(env, m, order, x);
    }
  }

  lemma GrownTwice(env: Env, middle: Env, after: Env, xs: set<Sym>, ys: set<Sym>)
    requires Grown(env, middle, xs) && Grown(middle, after, ys)
    ensures Grown(env, after, xs + ys)
  {
  }

  lemma GrownAgree(env: Env, after: Env, scope: Env, bound: set<Sym>, names: set<Sym>)
    requires Grown(env, after, bound) && bound !! names && Agree(env, scope, names)
    ensures Agree(after, scope, names)
  {
  }

  lemma AgreeLess(env: Env, scope: Env, names: set<Sym>, fewer: set<Sym>)
    requires Agree(env, scope, names) && fewer <= names
    ensures Agree(env, scope, fewer)
  {
  }

  lemma GrownMore(env: Env, after: Env, fewer: set<Sym>, names: set<Sym>)
    requires Grown(env, after, fewer) && fewer <= names
    ensures Grown(env, after, names)
  {
  }

  lemma GrownSelf(env: Env, names: set<Sym>)
    ensures Grown(env, env, names)
  {
  }

  lemma AskAgree(env: Env, scope: Env, names: set<Sym>, c: Cond, eval: Sym -> bool)
    requires Agree(env, scope, names) && Flags(c) <= names
    ensures Ask(eval, env, c) == Ask(eval, scope, c)
  {
    if c.On? { assert c.x in names; }
  }

  lemma AskRenamed(scope: Env, m: Renaming, c: Cond, eval: Sym -> bool)
    ensures Ask(eval, scope, RenameCond(m, c)) == Ask(eval, Entered(scope, m), c)
    ensures forall names :: Flags(c) <= names ==> Flags(RenameCond(m, c)) <= Image(m, names)
  {
    if c.On? { EnteredGet(scope, m, c.x); }
  }

  /** The arm asks and enters no more than the annotation. */
  predicate ArmOf(arm: Annot, n: Annot, scope: Env, eval: Sym -> bool)
  {
    && Asked(arm, scope, eval) <= Asked(n, scope, eval) && Bound(arm, scope, eval) <= Bound(n, scope, eval)
    && (Tidy(n, scope, eval) ==> Tidy(arm, scope, eval)) && (Settled(n, scope, eval) ==> Settled(arm, scope, eval))
    && (Ordered(n, scope, eval) ==> Ordered(arm, scope, eval))
  }

  predicate AskedFrom(ns: seq<AnnotBranch>, k: nat, names: set<Sym>)
  {
    forall j :: k <= j < |ns| ==> Flags(ns[j].cond) <= names
  }

  lemma ArmRenamed(arm: Annot, n: Annot, m: Renaming, scope: Env, eval: Sym -> bool)
    requires ArmOf(arm, n, Entered(scope, m), eval)
    ensures ArmOf(Rename(arm, m), Rename(n, m), scope, eval)
  {
    hide Entered;
  }

  lemma AskedFromRenamed(ns: seq<AnnotBranch>, k: nat, m: Renaming, names: set<Sym>, scope: Env, eval: Sym -> bool)
    requires AskedFrom(ns, k, names)
    ensures AskedFrom(RenameBranches(ns, m), k, Image(m, names))
  {
    forall j | k <= j < |ns|
      ensures Flags(RenameCond(m, ns[j].cond)) <= Image(m, names)
    {
      AskRenamed(scope, m, ns[j].cond, eval);
    }
  }

  /** The arm that is taken, flattened, and the arms tried before it ask and enter no more than the nested
      annotation. */
  lemma {:induction false} UnitedAsked(n: Annot, scope: Env, eval: Sym -> bool)
    requires LastTrue(UniteAnnot(n), scope, eval) < |UniteAnnot(n)|
    ensures var ns := UniteAnnot(n);
            var k := LastTrue(ns, scope, eval);
            AskedFrom(ns, k, Asked(n, scope, eval)) && ArmOf(ns[k].ann, n, scope, eval)
    decreases n, 1
  {
    hide Entered, LastTrue, ArmOf;
    match n
    case Rename(a, m) =>
      LastTrueRenamed(UniteAnnot(a), m, scope, eval);
      UnitedAsked(a, Entered(scope, m), eval);
      var k := LastTrue(UniteAnnot(a), Entered(scope, m), eval);
      AskedFromRenamed(UniteAnnot(a), k, m, Asked(a, Entered(scope, m), eval), scope, eval);
      ArmRenamed(UniteAnnot(a)[k].ann, a, m, scope, eval);
    case Branch(_, _, _) => BranchAsked(n, scope, eval);
    case _ =>
  }

  lemma LastTrueStep(bs: seq<AnnotBranch>, b: AnnotBranch, scope: Env, eval: Sym -> bool)
    ensures Ask(eval, scope, b.cond) ==> LastTrue(bs + [b], scope, eval) == |bs|
    ensures !Ask(eval, scope, b.cond) && LastTrue(bs + [b], scope, eval) < |bs| + 1 ==>
              LastTrue(bs, scope, eval) == LastTrue(bs + [b], scope, eval) < |bs|
  {
    assert (bs + [b])[..|bs|] == bs;
  }

  lemma {:induction false} BranchAsked(n: Annot, scope: Env, eval: Sym -> bool)
    requires n.Branch? && LastTrue(UniteAnnot(n), scope, eval) < |UniteAnnot(n)|
    ensures var ns := UniteAnnot(n);
            var k := LastTrue(ns, scope, eval);
            AskedFrom(ns, k, Asked(n, scope, eval)) && ArmOf(ns[k].ann, n, scope, eval)
    decreases n, 0
  {
    hide LastTrue, Ask, Flags;
    LastTrueStep(UniteAnnot(n.els), AnnotBranch(n.cond, n.thn), scope, eval);
    if !Ask(eval, scope, n.cond) { UnitedAsked(n.els, scope, eval); }
  }

  lemma {:induction false} ArmsUnited(n: Annot)
    ensures |UniteAnnot(n)| == Arms(n)
  {
    match n
    case Rename(a, _) => ArmsUnited(a);
    case Branch(_, _, e) => ArmsUnited(e);
    case _ =>
  }

  lemma {:induction false} LastTrueRenamed(bs: seq<AnnotBranch>, m: Renaming, scope: Env, eval: Sym -> bool)
    ensures LastTrue(RenameBranches(bs, m), scope, eval) == LastTrue(bs, Entered(scope, m), eval)
  {
    if bs != [] {
      var n := |bs| - 1;
      LastTrueRenamed(bs[..n], m, scope, eval);
      assert RenameBranches(bs, m)[..n] == RenameBranches(bs[..n], m);
      AskRenamed(scope, m, bs[n].cond, eval);
    }
  }

  lemma {:induction false} LastTrueAgree(bs: seq<AnnotBranch>, env: Env, scope: Env, eval: Sym -> bool)
    requires var k := LastTrue(bs, scope, eval);
             k < |bs| && forall j :: k <= j < |bs| ==> Ask(eval, env, bs[j].cond) == Ask(eval, scope, bs[j].cond)
    ensures LastTrue(bs, env, eval) == LastTrue(bs, scope, eval)
  {
    if bs != [] && !Ask(eval, scope, bs[|bs| - 1].cond) { LastTrueAgree(bs[..|bs| - 1], env, scope, eval); }
  }

  lemma DenoteRename(a: Action, n: Annot, m: Renaming, scope: Env, stops: bool, eval: Sym -> bool, mod: Callees)
    ensures Denote(a, Rename(n, m), scope, -1, stops, eval, mod) ==
            Denote(a, n, Entered(scope, m), -1, stops, eval, mod)
  {
  }

  /** Picking in the flattened list is picking in the nested annotation. */
  lemma {:induction false} ChoiceUnited(bs: seq<Action>, n: Annot, scope: Env, stops: bool, eval: Sym -> bool,
                                        mod: Callees)
    requires Arms(n) == |bs|
    ensures |UniteAnnot(n)| == |bs|
    ensures var k := LastTrue(UniteAnnot(n), scope, eval);
            DenoteChoice(bs, n, scope, stops, eval, mod) ==
            if k == |bs| then None else Denote(bs[k], UniteAnnot(n)[k].ann, scope, -1, stops, eval, mod)
  {
    hide Denote, Entered;
    ArmsUnited(n);
    var k := LastTrue(UniteAnnot(n), scope, eval);
    match n
    case Rename(a, m) =>
      ArmsUnited(a);
      ChoiceUnited(bs, a, Entered(scope, m), stops, eval, mod);
      LastTrueRenamed(UniteAnnot(a), m, scope, eval);
      if k < |bs| {
        DenoteRename(bs[k], UniteAnnot(a)[k].ann, m, scope, stops, eval, mod);
      }
    case Branch(c, t, e) =>
      ArmsUnited(e);
      assert UniteAnnot(n)[..|bs| - 1] == UniteAnnot(e);
      if !Ask(eval, scope, c) {
        ChoiceUnited(bs[..|bs| - 1], e, scope, stops, eval, mod);
      }
    case _ =>
  }

  /** Whatever order renamings are entered in, the walk hands over exactly what is meant, without complaint, if the
      annotation fits and the order does not matter to the flags that are asked on the way. */
  lemma {:induction false} WalkFaithful(a: Action, n: Annot, env: Env, scope: Env, pos: int, stops: bool,
                                        eval: Sym -> bool, mod: Callees, r: Walked)
    requires Tidy(n, scope, eval) && Settled(n, scope, eval) && Agree(env, scope, Asked(n, scope, eval))
    requires Denote(a, n, scope, pos, stops, eval, mod).Some? && Walks(a, n, env, pos, eval, mod, r)
    ensures Faithful(r, env, Bound(n, scope, eval), Denote(a, n, scope, pos, stops, eval, mod).value)
    decreases Size(n), Weight(a), 2
  {
    hide Agree, Grown, Entered, Restored, EnterEach, Settled, Tidy, Bound, Asked;
    GrownSelf(env, Bound(n, scope, eval));
    if n.Rename? {
      WalkRename(a, n, env, scope, pos, stops, eval, mod, r);
      return;
    }
    match a
    case Seq(es) => WalkSequence(a, n, env, scope, pos, stops, eval, mod, r);
    case If(some, thn, els) => WalkIf(a, n, env, scope, pos, stops, eval, mod, r);
    case Choice(bs) => WalkChoice(a, n, env, scope, pos, stops, eval, mod, r);
    case Call(name) => if name in mod { WalkCall(a, n, env, scope, pos, stops, eval, mod, r); }
    case While(x) => WalkFaithful(x, n, env, scope, -1, stops, eval, mod, r);
    case Local(b) => WalkFaithful(b, n, env, scope, -1, stops, eval, mod, r);
    case Fail(x) => WalkFail(a, n, env, scope, pos, stops, eval, mod, r);
    case _ =>
  }

  lemma {:induction false} WalkRename(a: Action, n: Annot, env: Env, scope: Env, pos: int, stops: bool,
                                      eval: Sym -> bool, mod: Callees, r: Walked)
    requires n.Rename? && Tidy(n, scope, eval) && Settled(n, scope, eval) && Agree(env, scope, Asked(n, scope, eval))
    requires Denote(a, n, scope, pos, stops, eval, mod).Some? && Walks(a, n, env, pos, eval, mod, r)
    ensures Faithful(r, env, Bound(n, scope, eval), Denote(a, n, scope, pos, stops, eval, mod).value)
    decreases Size(n), Weight(a), 1
  {
    hide Agree, Grown, Entered, Restored, EnterEach, OrderOf, Steady;
    var order, inner := EnteredSomehow(a, n, env, pos, eval, mod, r);
    EnteredAgree(env, scope, n.m, order, Asked(n.arg, Entered(scope, n.m), eval));
    WalkFaithful(a, n.arg, EnterEach(env, n.m, order), Entered(scope, n.m), pos, stops, eval, mod, inner);
    RestoredGrown(env, inner.env, n.m, order, Bound(n.arg, Entered(scope, n.m), eval));
  }

  /** The order in which a renaming was entered. */
  lemma EnteredSomehow(a: Action, n: Annot, env: Env, pos: int, eval: Sym -> bool, mod: Callees, r: Walked)
    returns (order: seq<Sym>, inner: Walked)
    requires n.Rename? && Walks(a, n, env, pos, eval, mod, r)
    ensures OrderOf(order, n.m) && (forall x :: x in order ==> x in n.m)
    ensures Walks(a, n.arg, EnterEach(env, n.m, order), pos, eval, mod, inner) && r == Outside(inner, env, n.m)
  {
    hide EnterEach, Once, Outside;
    order, inner :|
      && OrderOf(order, n.m) && Walks(a, n.arg, EnterEach(env, n.m, order), pos, eval, mod, inner)
      && r == Outside(inner, env, n.m);
    forall x | x in order
      ensures x in n.m
    {
      assert x in Elements(order);
    }
  }

  lemma {:induction false} WalkCall(a: Action, n: Annot, env: Env, scope: Env, pos: int, stops: bool,
                                    eval: Sym -> bool, mod: Callees, r: Walked)
    requires a.Call? && a.name in mod && !n.Rename?
    requires Tidy(n, scope, eval) && Settled(n, scope, eval) && Agree(env, scope, Asked(n, scope, eval))
    requires Denote(a, n, scope, pos, stops, eval, mod).Some? && Walks(a, n, env, pos, eval, mod, r)
    ensures Faithful(r, env, Bound(n, scope, eval), Denote(a, n, scope, pos, stops, eval, mod).value)
    decreases Size(n), Weight(a), 1
  {
    hide Agree, Grown, Settled, Tidy, Bound, Asked, Walks;
    var body := Seq([Ignore, mod[a.name], Return]);
    var q := CalledThrough(a, n, env, pos, eval, mod, r);
    WalkFaithful(body, n, env, scope, -1, stops, eval, mod, q);
    EventsBoth([Told(Handle(a), env)], q.log);
    EventsBoth([Told(Handle(a), scope)], Denote(body, n, scope, -1, stops, eval, mod).value);
    assert Events([Told(Handle(a), env)]) == Events([Told(Handle(a), scope)]);
  }

  lemma CalledThrough(a: Action, n: Annot, env: Env, pos: int, eval: Sym -> bool, mod: Callees, r: Walked)
    returns (q: Walked)
    requires a.Call? && a.name in mod && !n.Rename? && Walks(a, n, env, pos, eval, mod, r)
    ensures Walks(Seq([Ignore, mod[a.name], Return]), n, env, -1, eval, mod, q)
    ensures r == q.(log := [Told(Handle(a), env)] + q.log)
  {
    var body := Seq([Ignore, mod[a.name], Return]);
    q :| Walks(body, n, env, -1, eval, mod, q) && r == q.(log := [Told(Handle(a), env)] + q.log);
  }

  lemma {:induction false} WalkFail(a: Action, n: Annot, env: Env, scope: Env, pos: int, stops: bool,
                                    eval: Sym -> bool, mod: Callees, r: Walked)
    requires a.Fail? && !n.Rename?
    requires Tidy(n, scope, eval) && Settled(n, scope, eval) && Agree(env, scope, Asked(n, scope, eval))
    requires Denote(a, n, scope, pos, stops, eval, mod).Some? && Walks(a, n, env, pos, eval, mod, r)
    ensures Faithful(r, env, Bound(n, scope, eval), Denote(a, n, scope, pos, stops, eval, mod).value)
    decreases Size(n), Weight(a), 1
  {
    hide Agree, Grown, Settled, Tidy, Bound, Asked;
    var q: Walked :| Walks(a.inner, n, env, -1, eval, mod, q)
      && r == if q.gaveUp then q else q.(log := q.log + [Told(Failed, map[])]);
    WalkFaithful(a.inner, n, env, scope, -1, stops, eval, mod, q);
    EventsBoth(q.log, [Told(Failed, map[])]);
    EventsBoth(Denote(a.inner, n, scope, -1, stops, eval, mod).value, [Told(Failed, map[])]);
  }

  lemma {:induction false} WalkIf(a: Action, n: Annot, env: Env, scope: Env, pos: int, stops: bool,
                                  eval: Sym -> bool, mod: Callees, r: Walked)
    requires a.If? && !n.Rename?
    requires Tidy(n, scope, eval) && Settled(n, scope, eval) && Agree(env, scope, Asked(n, scope, eval))
    requires Denote(a, n, scope, pos, stops, eval, mod).Some? && Walks(a, n, env, pos, eval, mod, r)
    ensures Faithful(r, env, Bound(n, scope, eval), Denote(a, n, scope, pos, stops, eval, mod).value)
    decreases Size(n), 0, 0
  {
    hide Agree, Grown, Entered, Restored, Lookup, Wrapped, Ask;
    AskAgree(env, scope, Asked(n, scope, eval), n.cond, eval);
    var rest := if Ask(eval, scope, n.cond) then n.thn else n.els;
    AgreeLess(env, scope, Asked(n, scope, eval), Asked(rest, scope, eval));
    GrownSelf(env, Bound(n, scope, eval));
    if Ask(eval, scope, n.cond) {
      WalkFaithful(Wrapped(a.some, a.thn), n.thn, env, scope, -1, stops, eval, mod, r);
    } else if a.els.Some? {
      WalkFaithful(Wrapped(a.some, a.els.value), n.els, env, scope, -1, stops, eval, mod, r);
    }
  }

  lemma {:induction false} WalkChoice(a: Action, n: Annot, env: Env, scope: Env, pos: int, stops: bool,
                                      eval: Sym -> bool, mod: Callees, r: Walked)
    requires a.Choice? && !n.Rename?
    requires Tidy(n, scope, eval) && Settled(n, scope, eval) && Agree(env, scope, Asked(n, scope, eval))
    requires Denote(a, n, scope, pos, stops, eval, mod).Some? && Walks(a, n, env, pos, eval, mod, r)
    ensures Faithful(r, env, Bound(n, scope, eval), Denote(a, n, scope, pos, stops, eval, mod).value)
    decreases Size(n), 0, 0
  {
    hide Agree, Grown, Entered, Restored, Lookup, Asked, Bound, Tidy, Settled, Ordered, Ask;
    var bs, ns, names := a.branches, UniteAnnot(n), Asked(n, scope, eval);
    ChoiceUnited(bs, n, scope, stops, eval, mod);
    var k := LastTrue(ns, scope, eval);
    SamePick(n, env, scope, eval);
    UnitedAsked(n, scope, eval);
    AgreeLess(env, scope, names, Asked(ns[k].ann, scope, eval));
    WalkFaithful(bs[k], ns[k].ann, env, scope, -1, stops, eval, mod, r);
    GrownMore(env, r.env, Bound(ns[k].ann, scope, eval), Bound(n, scope, eval));
  }

  lemma SamePick(n: Annot, env: Env, scope: Env, eval: Sym -> bool)
    requires Agree(env, scope, Asked(n, scope, eval)) && LastTrue(UniteAnnot(n), scope, eval) < |UniteAnnot(n)|
    ensures LastTrue(UniteAnnot(n), env, eval) == LastTrue(UniteAnnot(n), scope, eval)
  {
    hide Agree, Asked, Ask, LastTrue, UniteAnnot;
    var ns := UniteAnnot(n);
    var k := LastTrue(ns, scope, eval);
    UnitedAsked(n, scope, eval);
    forall j | k <= j < |ns|
      ensures Ask(eval, env, ns[j].cond) == Ask(eval, scope, ns[j].cond)
    {
      AskAgree(env, scope, Asked(n, scope, eval), ns[j].cond, eval);
    }
    LastTrueAgree(ns, env, scope, eval);
  }

  lemma {:induction false} WalkSequence(a: Action, n: Annot, env: Env, scope: Env, pos: int, stops: bool,
                                        eval: Sym -> bool, mod: Callees, r: Walked)
    requires a.Seq? && !n.Rename?
    requires Tidy(n, scope, eval) && Settled(n, scope, eval) && Agree(env, scope, Asked(n, scope, eval))
    requires Denote(a, n, scope, pos, stops, eval, mod).Some? && Walks(a, n, env, pos, eval, mod, r)
    ensures Faithful(r, env, Bound(n, scope, eval), Denote(a, n, scope, pos, stops, eval, mod).value)
    decreases Size(n), 0, 1
  {
    var p := Position(a, pos);
    if p == 0 {
      GrownSelf(env, Bound(n, scope, eval));
    } else if n.Branch? {
      WalkStop(a, n, env, scope, pos, stops, eval, mod, r);
    } else {
      WalkStep(a, n, env, scope, pos, stops, eval, mod, r);
    }
  }

  lemma {:induction false} WalkStop(a: Action, n: Annot, env: Env, scope: Env, pos: int, stops: bool,
                                    eval: Sym -> bool, mod: Callees, r: Walked)
    requires a.Seq? && Position(a, pos) > 0 && n.Branch?
    requires Tidy(n, scope, eval) && Settled(n, scope, eval) && Agree(env, scope, Asked(n, scope, eval))
    requires Denote(a, n, scope, pos, stops, eval, mod).Some? && Walks(a, n, env, pos, eval, mod, r)
    ensures Faithful(r, env, Bound(n, scope, eval), Denote(a, n, scope, pos, stops, eval, mod).value)
    decreases Size(n), 0, 0
  {
    hide Agree, Grown, Entered, Restored, Lookup, Ask;
    var p := Position(a, pos);
    AskAgree(env, scope, Asked(n, scope, eval), n.cond, eval);
    var taken := Ask(eval, scope, n.cond);
    var rest, q := if taken then n.thn else n.els, if taken then p else p - 1;
    AgreeLess(env, scope, Asked(n, scope, eval), Asked(rest, scope, eval));
    WalkFaithful(a, rest, env, scope, q, stops, eval, mod, r);
  }

  lemma {:induction false} WalkStep(a: Action, n: Annot, env: Env, scope: Env, pos: int, stops: bool,
                                    eval: Sym -> bool, mod: Callees, r: Walked)
    requires a.Seq? && Position(a, pos) > 0 && n.Compose?
    requires Tidy(n, scope, eval) && Settled(n, scope, eval) && Agree(env, scope, Asked(n, scope, eval))
    requires Denote(a, n, scope, pos, stops, eval, mod).Some? && Walks(a, n, env, pos, eval, mod, r)
    ensures Faithful(r, env, Bound(n, scope, eval), Denote(a, n, scope, pos, stops, eval, mod).value)
    decreases Size(n), 0, 0
  {
    hide Agree, Grown, Entered, Restored, Lookup, Walks, Denote;
    DenoteStep(a, n, scope, pos, stops, eval, mod);
    var p := Position(a, pos);
    AgreeLess(env, scope, Asked(n, scope, eval), Asked(n.left, scope, eval));
    AgreeLess(env, scope, Asked(n, scope, eval), Asked(n.right, scope, eval));
    var l, q := SteppedThrough(a, n, env, pos, eval, mod, r);
    WalkFaithful(a, n.left, env, scope, p - 1, false, eval, mod, l);
    GrownAgree(env, l.env, scope, Bound(n.left, scope, eval), Asked(n.right, scope, eval));
    WalkFaithful(a.elems[p - 1], n.right, l.env, scope, -1, stops, eval, mod, q);
    GrownTwice(env, l.env, q.env, Bound(n.left, scope, eval), Bound(n.right, scope, eval));
    EventsBoth(l.log, q.log);
    EventsBoth(Denote(a, n.left, scope, p - 1, false, eval, mod).value,
               Denote(a.elems[p - 1], n.right, scope, -1, stops, eval, mod).value);
  }

  /** The walks of the two parts of a composition. */
  lemma SteppedThrough(a: Action, n: Annot, env: Env, pos: int, eval: Sym -> bool, mod: Callees, r: Walked)
    returns (l: Walked, q: Walked)
    requires a.Seq? && Position(a, pos) > 0 && n.Compose? && Walks(a, n, env, pos, eval, mod, r)
    ensures var p := Position(a, pos);
            && Walks(a, n.left, env, p - 1, eval, mod, l) && (l.gaveUp ==> r == l)
            && (!l.gaveUp ==> Walks(a.elems[p - 1], n.right, l.env, -1, eval, mod, q) && r == Then(l, q))
  {
    var p := Position(a, pos);
    l :| Walks(a, n.left, env, p - 1, eval, mod, l) &&
      if l.gaveUp then r == l else
      exists q: Walked :: Walks(a.elems[p - 1], n.right, l.env, -1, eval, mod, q) && r == Then(l, q);
    q := l;
    if !l.gaveUp {
      q :| Walks(a.elems[p - 1], n.right, l.env, -1, eval, mod, q) && r == Then(l, q);
    }
  }

  lemma StepWalked(a: Action, n: Annot, env: Env, pos: int, eval: Sym -> bool, mod: Callees, l: Walked, q: Walked)
    requires a.Seq? && Position(a, pos) > 0 && n.Compose?
    requires Walks(a, n.left, env, Position(a, pos) - 1, eval, mod, l) && !l.gaveUp
    requires Walks(a.elems[Position(a, pos) - 1], n.right, l.env, -1, eval, mod, q)
    ensures Walks(a, n, env, pos, eval, mod, Then(l, q))
  {
  }

  lemma DenoteStep(a: Action, n: Annot, scope: Env, pos: int, stops: bool, eval: Sym -> bool, mod: Callees)
    requires a.Seq? && Position(a, pos) > 0 && n.Compose?
    ensures var p := Position(a, pos);
            var r := Denote(a, n.left, scope, p - 1, false, eval, mod);
            var q := Denote(a.elems[p - 1], n.right, scope, -1, stops, eval, mod);
            Denote(a, n, scope, pos, stops, eval, mod) == if r.Some? && q.Some? then Some(r.value + q.value) else None
  {
  }

  // ----- the environments that are handed over -----

  /** The bindings that a walk leaves behind: an entry of a renaming stays unless it was there before. */
  function Left(a: Action, n: Annot, env: Env, pos: int, eval: Sym -> bool, mod: Callees): (left: Env)
    ensures forall x :: x in left ==> x !in env
    decreases Size(n), Weight(a)
  {
    if n.Rename? then
      (map x | x in n.m && x !in env :: Lookup(env, n.m[x])) + Left(a, n.arg, Entered(env, n.m), pos, eval, mod)
    else
    match a
    case Seq(es) =>
      var p := Position(a, pos);
      if p == 0 then map[]
      else if n.Branch? then
        if Ask(eval, env, n.cond) then Left(a, n.thn, env, p, eval, mod) else Left(a, n.els, env, p - 1, eval, mod)
      else if n.Compose? then
        var left := Left(a, n.left, env, p - 1, eval, mod);
        left + Left(es[p - 1], n.right, env + left, -1, eval, mod)
      else map[]
    case If(some, thn, els) =>
      if !n.Branch? then map[]
      else if Ask(eval, env, n.cond) then Left(Wrapped(some, thn), n.thn, env, -1, eval, mod)
      else if els.Some? then Left(Wrapped(some, els.value), n.els, env, -1, eval, mod)
      else map[]
    case Choice(bs) =>
      var ns := UniteAnnot(n);
      var k := LastTrue(ns, env, eval);
      if |ns| == |bs| && k < |ns| then Left(bs[k], ns[k].ann, env, -1, eval, mod) else map[]
    case Call(name) =>
      if name !in mod then map[] else Left(Seq([Ignore, mod[name], Return]), n, env, -1, eval, mod)
    case While(x) => Left(x, n, env, -1, eval, mod)
    case Local(b) => Left(b, n, env, -1, eval, mod)
    case Fail(x) => Left(x, n, env, -1, eval, mod)
    case _ => map[]
  }

  /** The names that a renaming leads to one of the given names. */
  function Leading(m: Renaming, names: set<Sym>): set<Sym>
  {
    (names - m.Keys) + set x | x in m && m[x] in names
  }

  /** The names that a walk leaves behind with another name as their value. */
  function LeftNames(left: Env): set<Sym>
  {
    set x | x in left && left[x] != x
  }

  /** For each event, the names from which the renamings above it lead to a name that was left behind by something
      that came earlier in a sequence. */
  function Stale(a: Action, n: Annot, env: Env, names: set<Sym>, pos: int, eval: Sym -> bool, mod: Callees):
    seq<set<Sym>>
    decreases Size(n), Weight(a)
  {
    if n.Rename? then Stale(a, n.arg, Entered(env, n.m), Leading(n.m, names), pos, eval, mod)
    else
    match a
    case Seq(es) =>
      var p := Position(a, pos);
      if p == 0 then []
      else if n.Branch? then
        if Ask(eval, env, n.cond) then Stale(a, n.thn, env, names, p, eval, mod)
        else Stale(a, n.els, env, names, p - 1, eval, mod)
      else if n.Compose? then
        var left := Left(a, n.left, env, p - 1, eval, mod);
        Stale(a, n.left, env, names, p - 1, eval, mod)
        + Stale(es[p - 1], n.right, env + left, names + LeftNames(left), -1, eval, mod)
      else []
    case If(some, thn, els) =>
      if !n.Branch? then []
      else if Ask(eval, env, n.cond) then Stale(Wrapped(some, thn), n.thn, env, names, -1, eval, mod)
      else if els.Some? then Stale(Wrapped(some, els.value), n.els, env, names, -1, eval, mod)
      else []
    case Choice(bs) =>
      var ns := UniteAnnot(n);
      var k := LastTrue(ns, env, eval);
      if |ns| == |bs| && k < |ns| then Stale(bs[k], ns[k].ann, env, names, -1, eval, mod) else []
    case Call(name) =>
      if name !in mod then [names] else
      [names] + Stale(Seq([Ignore, mod[name], Return]), n, env, names, -1, eval, mod)
    case While(x) => Stale(x, n, env, names, -1, eval, mod)
    case Local(b) => Stale(b, n, env, names, -1, eval, mod)
    case Fail(x) => Stale(x, n, env, names, -1, eval, mod) + [{}]
    case Ignore => []
    case _ => [names]
  }

  /** The environment has the bindings of the scope, and the names on which they differ are the given ones. */
  ghost predicate Differ(env: Env, scope: Env, names: set<Sym>)
  {
    scope.Keys <= env.Keys && forall x :: Lookup(env, x) == Lookup(scope, x) <==> x !in names
  }

  /** Each event is handed the bindings of its scope except for the given names. */
  ghost predicate HandedBut(log: seq<Told>, es: seq<Told>, stale: seq<set<Sym>>)
  {
    && |log| == |es| == |stale|
    && forall k :: 0 <= k < |log| ==>
         forall x :: Lookup(log[k].env, x) == Lookup(es[k].env, x) <==> x !in stale[k]
  }

  lemma DifferEntered(env: Env, scope: Env, m: Renaming, names: set<Sym>)
    requires Differ(env, scope, names)
    ensures Differ(Entered(env, m), Entered(scope, m), Leading(m, names))
  {
    hide Lookup;
    forall x
      ensures Lookup(Entered(env, m), x) == Lookup(Entered(scope, m), x) <==> x !in Leading(m, names)
    {
      EnteredGet(env, m, x);
      EnteredGet(scope, m, x);
      LookupEither(m, x);
    }
  }

  lemma LookupEither(m: Renaming, x: Sym)
    ensures Lookup(m, x) == if x in m then m[x] else x
  {
  }

  /** What is left behind differs from the scope exactly if it has another name as its value. */
  lemma DifferLeft(env: Env, scope: Env, left: Env, names: set<Sym>)
    requires Differ(env, scope, names) && forall x :: x in left ==> x !in env
    ensures Differ(env + left, scope, names + LeftNames(left))
  {
    forall x
      ensures Lookup(env + left, x) == Lookup(scope, x) <==> x !in names + LeftNames(left)
    {
      if x in left { assert Lookup(env, x) == x == Lookup(scope, x); }
    }
  }

  lemma HandedBoth(x: seq<Told>, x': seq<Told>, p: seq<set<Sym>>, y: seq<Told>, y': seq<Told>, q: seq<set<Sym>>)
    requires HandedBut(x, x', p) && HandedBut(y, y', q)
    ensures HandedBut(x + y, x' + y', p + q)
  {
    hide Lookup;
    forall k | 0 <= k < |x + y|
      ensures forall z :: Lookup((x + y)[k].env, z) == Lookup((x' + y')[k].env, z) <==> z !in (p + q)[k]
    {
      if k >= |x| {
        var j := k - |x|;
        assert (x + y)[k] == y[j] && (x' + y')[k] == y'[j] && (p + q)[k] == q[j];
      }
    }
  }

  lemma HandedOne(e: Event, env: Env, scope: Env, names: set<Sym>)
    requires Differ(env, scope, names)
    ensures HandedBut([Told(e, env)], [Told(e, scope)], [names])
  {
  }

  /** The walk left exactly these bindings, and handed over these environments. */
  ghost predicate HandedOver(r: Walked, env: Env, left: Env, es: seq<Told>, stale: seq<set<Sym>>)
  {
    r.env == env + left && HandedBut(r.log, es, stale)
  }

  /** What the environments handed over are: with each event comes one that gives every name the value it has in
      the lexical scope of the event, except exactly the stale names. */
  lemma {:induction false} EnvironmentExact(a: Action, n: Annot, env: Env, scope: Env, names: set<Sym>, pos: int,
                                            stops: bool, eval: Sym -> bool, mod: Callees, r: Walked)
    requires Tidy(n, scope, eval) && Ordered(n, scope, eval) && Agree(env, scope, Asked(n, scope, eval))
    requires Denote(a, n, scope, pos, stops, eval, mod).Some? && Walks(a, n, env, pos, eval, mod, r)
    requires Differ(env, scope, names)
    ensures HandedOver(r, env, Left(a, n, env, pos, eval, mod), Denote(a, n, scope, pos, stops, eval, mod).value,
                       Stale(a, n, env, names, pos, eval, mod))
    decreases Size(n), Weight(a), 2
  {
    hide Agree, Entered, Restored, EnterEach, Ordered, Tidy, Bound, Asked, Differ, HandedBut, Leading;
    if n.Rename? {
      HandedRename(a, n, env, scope, names, pos, stops, eval, mod, r);
      return;
    }
    assert env + map[] == env;
    match a
    case Seq(es) => HandedSequence(a, n, env, scope, names, pos, stops, eval, mod, r);
    case If(some, thn, els) => HandedIf(a, n, env, scope, names, pos, stops, eval, mod, r);
    case Choice(bs) => HandedChoice(a, n, env, scope, names, pos, stops, eval, mod, r);
    case Call(name) => HandedCall(a, n, env, scope, names, pos, stops, eval, mod, r);
    case While(x) => EnvironmentExact(x, n, env, scope, names, -1, stops, eval, mod, r);
    case Local(b) => EnvironmentExact(b, n, env, scope, names, -1, stops, eval, mod, r);
    case Fail(x) => HandedFail(a, n, env, scope, names, pos, stops, eval, mod, r);
    case _ =>
      HandedOne(DoReturn, env, scope, names);
      HandedOne(Handle(a), env, scope, names);
      HandedNone();
  }

  lemma HandedNone()
    ensures HandedBut([], [], [])
  {
  }

  lemma {:induction false} HandedRename(a: Action, n: Annot, env: Env, scope: Env, names: set<Sym>, pos: int,
                                        stops: bool, eval: Sym -> bool, mod: Callees, r: Walked)
    requires n.Rename? && Tidy(n, scope, eval) && Ordered(n, scope, eval) && Agree(env, scope, Asked(n, scope, eval))
    requires Denote(a, n, scope, pos, stops, eval, mod).Some? && Walks(a, n, env, pos, eval, mod, r)
    requires Differ(env, scope, names)
    ensures HandedOver(r, env, Left(a, n, env, pos, eval, mod), Denote(a, n, scope, pos, stops, eval, mod).value,
                       Stale(a, n, env, names, pos, eval, mod))
    decreases Size(n), Weight(a), 1
  {
    var order, inner := EnteredSomehow(a, n, env, pos, eval, mod, r);
    OrderedSettled(n, scope, eval);
    WalkFaithful(a, n, env, scope, pos, stops, eval, mod, r);
    hide Agree, Entered, Restored, EnterEach, OrderOf, Idempotent, Differ, HandedBut, Leading, Grown;
    EnterWhole(env, n.m, order);
    EnteredAgree(env, scope, n.m, order, Asked(n.arg, Entered(scope, n.m), eval)) by { IdempotentSteady(n.m); }
    DifferEntered(env, scope, n.m, names);
    EnvironmentExact(a, n.arg, Entered(env, n.m), Entered(scope, n.m), Leading(n.m, names), pos, stops, eval, mod,
                     inner);
    RestoredLeft(env, n.m, Left(a, n.arg, Entered(env, n.m), pos, eval, mod));
  }

  lemma IdempotentSteady(m: Renaming)
    requires Idempotent(m)
    ensures forall x :: Steady(m, x)
  {
  }

  lemma RestoredLeft(env: Env, m: Renaming, left: Env)
    requires forall x :: x in left ==> x !in Entered(env, m)
    ensures Restored(Entered(env, m) + left, env, m) ==
            env + ((map x | x in m && x !in env :: Lookup(env, m[x])) + left)
  {
    hide Lookup;
  }

  lemma {:induction false} HandedSequence(a: Action, n: Annot, env: Env, scope: Env, names: set<Sym>, pos: int,
                                          stops: bool, eval: Sym -> bool, mod: Callees, r: Walked)
    requires a.Seq? && !n.Rename?
    requires Tidy(n, scope, eval) && Ordered(n, scope, eval) && Agree(env, scope, Asked(n, scope, eval))
    requires Denote(a, n, scope, pos, stops, eval, mod).Some? && Walks(a, n, env, pos, eval, mod, r)
    requires Differ(env, scope, names)
    ensures HandedOver(r, env, Left(a, n, env, pos, eval, mod), Denote(a, n, scope, pos, stops, eval, mod).value,
                       Stale(a, n, env, names, pos, eval, mod))
    decreases Size(n), 0, 1
  {
    hide Agree, Entered, Restored, Differ, HandedBut, Lookup, Asked;
    var p := Position(a, pos);
    if p == 0 {
      assert env + map[] == env;
      HandedNone();
    } else if n.Branch? {
      AskAgree(env, scope, Asked(n, scope, eval), n.cond, eval) by { AskedParts(n, scope, eval); }
      var taken := Ask(eval, scope, n.cond);
      var rest, q := if taken then n.thn else n.els, if taken then p else p - 1;
      hide Ask;
      AgreeLess(env, scope, Asked(n, scope, eval), Asked(rest, scope, eval)) by { AskedParts(n, scope, eval); }
      EnvironmentExact(a, rest, env, scope, names, q, stops, eval, mod, r);
    } else {
      HandedStep(a, n, env, scope, names, pos, stops, eval, mod, r);
    }
  }

  lemma AskedParts(n: Annot, scope: Env, eval: Sym -> bool)
    ensures n.Branch? ==>
              Flags(n.cond) + Asked(if Ask(eval, scope, n.cond) then n.thn else n.els, scope, eval) <=
              Asked(n, scope, eval)
    ensures n.Compose? ==> Asked(n.left, scope, eval) + Asked(n.right, scope, eval) <= Asked(n, scope, eval)
  {
  }

  lemma {:induction false} HandedStep(a: Action, n: Annot, env: Env, scope: Env, names: set<Sym>, pos: int,
                                      stops: bool, eval: Sym -> bool, mod: Callees, r: Walked)
    requires a.Seq? && Position(a, pos) > 0 && n.Compose?
    requires Tidy(n, scope, eval) && Ordered(n, scope, eval) && Agree(env, scope, Asked(n, scope, eval))
    requires Denote(a, n, scope, pos, stops, eval, mod).Some? && Walks(a, n, env, pos, eval, mod, r)
    requires Differ(env, scope, names)
    ensures HandedOver(r, env, Left(a, n, env, pos, eval, mod), Denote(a, n, scope, pos, stops, eval, mod).value,
                       Stale(a, n, env, names, pos, eval, mod))
    decreases Size(n), 0, 0
  {
    hide Agree, Grown, Entered, Restored, Lookup, Walks, Denote, Differ, HandedBut, Asked, Bound, LeftNames, Left,
      Stale, Settled;
    var p := Position(a, pos);
    DenoteStep(a, n, scope, pos, stops, eval, mod);
    LeftStep(a, n, env, pos, eval, mod);
    StaleStep(a, n, env, names, pos, eval, mod);
    AskedParts(n, scope, eval);
    AgreeLess(env, scope, Asked(n, scope, eval), Asked(n.left, scope, eval));
    AgreeLess(env, scope, Asked(n, scope, eval), Asked(n.right, scope, eval));
    var l, q := SteppedThrough(a, n, env, pos, eval, mod, r);
    OrderedSettled(n.left, scope, eval);
    WalkFaithful(a, n.left, env, scope, p - 1, false, eval, mod, l);
    GrownAgree(env, l.env, scope, Bound(n.left, scope, eval), Asked(n.right, scope, eval));
    EnvironmentExact(a, n.left, env, scope, names, p - 1, false, eval, mod, l);
    var left := Left(a, n.left, env, p - 1, eval, mod);
    DifferLeft(env, scope, left, names);
    EnvironmentExact(a.elems[p - 1], n.right, l.env, scope, names + LeftNames(left), -1, stops, eval, mod, q);
    HandedBoth(l.log, Denote(a, n.left, scope, p - 1, false, eval, mod).value,
               Stale(a, n.left, env, names, p - 1, eval, mod),
               q.log, Denote(a.elems[p - 1], n.right, scope, -1, stops, eval, mod).value,
               Stale(a.elems[p - 1], n.right, env + left, names + LeftNames(left), -1, eval, mod));
    LeftBoth(env, left, Left(a.elems[p - 1], n.right, env + left, -1, eval, mod));
  }

  lemma LeftBoth(env: Env, left: Env, more: Env)
    ensures (env + left) + more == env + (left + more)
  {
  }

  lemma LeftStep(a: Action, n: Annot, env: Env, pos: int, eval: Sym -> bool, mod: Callees)
    requires a.Seq? && Position(a, pos) > 0 && n.Compose?
    ensures var p := Position(a, pos);
            var left := Left(a, n.left, env, p - 1, eval, mod);
            Left(a, n, env, pos, eval, mod) == left + Left(a.elems[p - 1], n.right, env + left, -1, eval, mod)
  {
    hide Ask, Lookup, Entered, LastTrue, UniteAnnot, Wrapped;
  }

  lemma StaleStep(a: Action, n: Annot, env: Env, names: set<Sym>, pos: int, eval: Sym -> bool, mod: Callees)
    requires a.Seq? && Position(a, pos) > 0 && n.Compose?
    ensures var p := Position(a, pos);
            var left := Left(a, n.left, env, p - 1, eval, mod);
            Stale(a, n, env, names, pos, eval, mod) ==
            Stale(a, n.left, env, names, p - 1, eval, mod)
            + Stale(a.elems[p - 1], n.right, env + left, names + LeftNames(left), -1, eval, mod)
  {
    hide Ask, Lookup, Entered, LastTrue, UniteAnnot, Wrapped, Left, LeftNames, Leading;
  }

  lemma {:induction false} HandedIf(a: Action, n: Annot, env: Env, scope: Env, names: set<Sym>, pos: int,
                                    stops: bool, eval: Sym -> bool, mod: Callees, r: Walked)
    requires a.If? && !n.Rename?
    requires Tidy(n, scope, eval) && Ordered(n, scope, eval) && Agree(env, scope, Asked(n, scope, eval))
    requires Denote(a, n, scope, pos, stops, eval, mod).Some? && Walks(a, n, env, pos, eval, mod, r)
    requires Differ(env, scope, names)
    ensures HandedOver(r, env, Left(a, n, env, pos, eval, mod), Denote(a, n, scope, pos, stops, eval, mod).value,
                       Stale(a, n, env, names, pos, eval, mod))
    decreases Size(n), 0, 0
  {
    hide Agree, Entered, Restored, Lookup, Wrapped, Ask, Differ, HandedBut, Asked;
    AskedParts(n, scope, eval);
    AskAgree(env, scope, Asked(n, scope, eval), n.cond, eval);
    var rest := if Ask(eval, scope, n.cond) then n.thn else n.els;
    AgreeLess(env, scope, Asked(n, scope, eval), Asked(rest, scope, eval));
    if Ask(eval, scope, n.cond) {
      EnvironmentExact(Wrapped(a.some, a.thn), n.thn, env, scope, names, -1, stops, eval, mod, r);
    } else if a.els.Some? {
      EnvironmentExact(Wrapped(a.some, a.els.value), n.els, env, scope, names, -1, stops, eval, mod, r);
    } else {
      assert env + map[] == env;
      HandedNone();
    }
  }

  lemma {:induction false} HandedChoice(a: Action, n: Annot, env: Env, scope: Env, names: set<Sym>, pos: int,
                                        stops: bool, eval: Sym -> bool, mod: Callees, r: Walked)
    requires a.Choice? && !n.Rename?
    requires Tidy(n, scope, eval) && Ordered(n, scope, eval) && Agree(env, scope, Asked(n, scope, eval))
    requires Denote(a, n, scope, pos, stops, eval, mod).Some? && Walks(a, n, env, pos, eval, mod, r)
    requires Differ(env, scope, names)
    ensures HandedOver(r, env, Left(a, n, env, pos, eval, mod), Denote(a, n, scope, pos, stops, eval, mod).value,
                       Stale(a, n, env, names, pos, eval, mod))
    decreases Size(n), 0, 0
  {
    hide Agree, Entered, Restored, Lookup, Asked, Bound, Tidy, Settled, Ordered, Ask, Differ, HandedBut;
    var bs, ns := a.branches, UniteAnnot(n);
    ChoiceUnited(bs, n, scope, stops, eval, mod);
    var k := LastTrue(ns, scope, eval);
    SamePick(n, env, scope, eval);
    UnitedAsked(n, scope, eval);
    AgreeLess(env, scope, Asked(n, scope, eval), Asked(ns[k].ann, scope, eval));
    EnvironmentExact(bs[k], ns[k].ann, env, scope, names, -1, stops, eval, mod, r);
  }

  lemma {:induction false} HandedCall(a: Action, n: Annot, env: Env, scope: Env, names: set<Sym>, pos: int,
                                      stops: bool, eval: Sym -> bool, mod: Callees, r: Walked)
    requires a.Call? && !n.Rename?
    requires Tidy(n, scope, eval) && Ordered(n, scope, eval) && Agree(env, scope, Asked(n, scope, eval))
    requires Denote(a, n, scope, pos, stops, eval, mod).Some? && Walks(a, n, env, pos, eval, mod, r)
    requires Differ(env, scope, names)
    ensures HandedOver(r, env, Left(a, n, env, pos, eval, mod), Denote(a, n, scope, pos, stops, eval, mod).value,
                       Stale(a, n, env, names, pos, eval, mod))
    decreases Size(n), Weight(a), 1
  {
    hide Agree, Differ, HandedBut, Ordered, Tidy, Asked;
    HandedOne(Handle(a), env, scope, names);
    assert env + map[] == env;
    if a.name in mod {
      var body := Seq([Ignore, mod[a.name], Return]);
      var q := CalledThrough(a, n, env, pos, eval, mod, r);
      EnvironmentExact(body, n, env, scope, names, -1, stops, eval, mod, q);
      HandedBoth([Told(Handle(a), env)], [Told(Handle(a), scope)], [names],
                 q.log, Denote(body, n, scope, -1, stops, eval, mod).value, Stale(body, n, env, names, -1, eval, mod));
    }
  }

  lemma {:induction false} HandedFail(a: Action, n: Annot, env: Env, scope: Env, names: set<Sym>, pos: int,
                                      stops: bool, eval: Sym -> bool, mod: Callees, r: Walked)
    requires a.Fail? && !n.Rename?
    requires Tidy(n, scope, eval) && Ordered(n, scope, eval) && Agree(env, scope, Asked(n, scope, eval))
    requires Denote(a, n, scope, pos, stops, eval, mod).Some? && Walks(a, n, env, pos, eval, mod, r)
    requires Differ(env, scope, names)
    ensures HandedOver(r, env, Left(a, n, env, pos, eval, mod), Denote(a, n, scope, pos, stops, eval, mod).value,
                       Stale(a, n, env, names, pos, eval, mod))
    decreases Size(n), Weight(a), 1
  {
    hide Agree, Differ, HandedBut, Ordered, Tidy, Asked, Settled, Grown, Bound;
    var q: Walked :| Walks(a.inner, n, env, -1, eval, mod, q)
      && r == if q.gaveUp then q else q.(log := q.log + [Told(Failed, map[])]);
    OrderedSettled(n, scope, eval);
    WalkFaithful(a.inner, n, env, scope, -1, stops, eval, mod, q);
    EnvironmentExact(a.inner, n, env, scope, names, -1, stops, eval, mod, q);
    HandedOne(Failed, map[], map[], {}) by { NoDifference(); }
    HandedBoth(q.log, Denote(a.inner, n, scope, -1, stops, eval, mod).value,
               Stale(a.inner, n, env, names, -1, eval, mod),
               [Told(Failed, map[])], [Told(Failed, map[])], [{}]);
  }

  lemma NoDifference()
    ensures Differ(map[], map[], {})
  {
  }

  /** From the empty environment: with each event, a name has the value of the lexical scope exactly if it does not
      lead to a name left behind. */
  lemma EnvironmentHanded(a: Action, n: Annot, stops: bool, eval: Sym -> bool, mod: Callees, r: Walked, k: nat, x: Sym)
    requires Tidy(n, map[], eval) && Ordered(n, map[], eval) && Walks(a, n, map[], -1, eval, mod, r)
    requires Denote(a, n, map[], -1, stops, eval, mod).Some? && k < |r.log|
    ensures var es, stale := Denote(a, n, map[], -1, stops, eval, mod).value, Stale(a, n, map[], {}, -1, eval, mod);
            && |es| == |stale| == |r.log|
            && (Lookup(r.log[k].env, x) == Lookup(es[k].env, x) <==> x !in stale[k])
  {
    hide Walks, Denote, Stale, Left, Tidy, Ordered, Asked;
    NoDifference();
    EnvironmentExact(a, n, map[], map[], {}, -1, stops, eval, mod, r);
  }

  // ----- what is meant is a path of the program -----

  /** The events are those of a path through the action, with calls nested at most depth deep; if not full,
      the path may end before the action does. */
  ghost predicate IsPath(a: Action, es: seq<Event>, full: bool, depth: nat, mod: Callees)
    decreases depth, a, 0
  {
    match a
    case Seq(xs) => IsPathTo(xs, es, full, depth, mod)
    case If(some, thn, els) =>
      || Behind(some, thn, es, full, depth, mod)
      || (if els.Some? then Behind(some, els.value, es, full, depth, mod) else es == [])
    case Choice(bs) => exists k :: 0 <= k < |bs| && IsPath(bs[k], es, full, depth, mod)
    case Call(name) =>
      if name !in mod then es == [Handle(a)] else
      depth > 0 && exists inner: seq<Event> ::
        es == [Handle(a)] + inner && CalleePath(mod[name], inner, full, depth - 1, mod)
    case While(x) => IsPath(x, es, full, depth, mod)
    case Local(b) => IsPath(b, es, full, depth, mod)
    case Fail(x) => exists inner: seq<Event> :: es == inner + [Failed] && IsPath(x, inner, full, depth, mod)
    case Return => es == [DoReturn]
    case Ignore => es == []
    case Leaf(_) => es == [Handle(a)]
  }

  /** A path through a branch, behind the assumption if there is one. */
  ghost predicate Behind(some: bool, a: Action, es: seq<Event>, full: bool, depth: nat, mod: Callees)
    decreases depth, a, 1
  {
    if !some then IsPath(a, es, full, depth, mod)
    else
      || (!full && es == [])
      || (!full && es == [Handle(Leaf(A.Assume(Lit(1))))])
      || exists rest: seq<Event> :: es == [Handle(Leaf(A.Assume(Lit(1))))] + rest && IsPath(a, rest, full, depth, mod)
  }

  /** A path through a callee and the return from it. */
  ghost predicate CalleePath(callee: Action, es: seq<Event>, full: bool, depth: nat, mod: Callees)
    decreases depth, callee, 1
  {
    || (!full && (es == [] || IsPath(callee, es, full, depth, mod)))
    || (exists inner: seq<Event> :: es == inner + [DoReturn] && IsPath(callee, inner, true, depth, mod))
  }

  /** A path through the actions in order; if not full, through the first ones and some way into the next. */
  ghost predicate IsPathTo(xs: seq<Action>, es: seq<Event>, full: bool, depth: nat, mod: Callees)
    decreases depth, xs, 0
  {
    if xs == [] then es == [] else
    var n := |xs| - 1;
    || (!full && IsPathTo(xs[..n], es, full, depth, mod))
    || exists x: seq<Event>, y: seq<Event> ::
         es == x + y && IsPathTo(xs[..n], x, true, depth, mod) && IsPath(xs[n], y, full, depth, mod)
  }

  lemma LastOnPath(xs: seq<Action>, a: Action, all: seq<Action>, es: seq<Event>, full: bool, depth: nat, mod: Callees)
    requires all == xs + [a]
    ensures IsPathTo(all, es, full, depth, mod) <==>
            || (!full && IsPathTo(xs, es, full, depth, mod))
            || exists x: seq<Event>, y: seq<Event> ::
                 es == x + y && IsPathTo(xs, x, true, depth, mod) && IsPath(a, y, full, depth, mod)
  {
    hide IsPath;
    var n := |all| - 1;
    assert all[..n] == xs && all[n] == a;
  }

  lemma OneOnPath(a: Action, es: seq<Event>, full: bool, depth: nat, mod: Callees)
    ensures IsPathTo([a], es, full, depth, mod) <==> (!full && es == []) || IsPath(a, es, full, depth, mod)
  {
    hide IsPath, IsPathTo;
    LastOnPath([], a, [a], es, full, depth, mod);
    NoneOnPath(depth, mod);
    assert [] + [a] == [a];
    if IsPath(a, es, full, depth, mod) {
      assert es == [] + es;
    }
    forall x: seq<Event>, y: seq<Event> | es == x + y && x == []
      ensures es == y
    {
    }
  }

  lemma NoneOnPath(depth: nat, mod: Callees)
    ensures forall x: seq<Event>, f: bool :: IsPathTo([], x, f, depth, mod) <==> x == []
  {
  }

  /** A path through the wrapped branch. */
  lemma WrappedPath(a: Action, es: seq<Event>, full: bool, depth: nat, mod: Callees)
    requires IsPathTo([Leaf(A.Assume(Lit(1))), a], es, full, depth, mod)
    ensures Behind(true, a, es, full, depth, mod)
  {
    hide IsPath, IsPathTo;
    var first := Leaf(A.Assume(Lit(1)));
    LastOnPath([first], a, [first, a], es, full, depth, mod);
    forall x: seq<Event>, f: bool
      ensures IsPathTo([first], x, f, depth, mod) <==> (!f && x == []) || x == [Handle(first)]
    {
      OneOnPath(first, x, f, depth, mod);
      LeafPath(A.Assume(Lit(1)), x, f, depth, mod);
    }
  }

  lemma LeafPath(act: A.Action, es: seq<Event>, full: bool, depth: nat, mod: Callees)
    ensures IsPath(Leaf(act), es, full, depth, mod) <==> es == [Handle(Leaf(act))]
    ensures IsPath(Ignore, es, full, depth, mod) <==> es == []
    ensures IsPath(Return, es, full, depth, mod) <==> es == [DoReturn]
  {
  }

  /** A path through the callee between the ignored action and the return. */
  lemma ReturnPath(a: Action, es: seq<Event>, full: bool, depth: nat, mod: Callees)
    requires IsPathTo([Ignore, a, Return], es, full, depth, mod)
    ensures CalleePath(a, es, full, depth, mod)
  {
    hide IsPath, IsPathTo;
    LastOnPath([Ignore, a], Return, [Ignore, a, Return], es, full, depth, mod);
    forall x: seq<Event>, f: bool
      ensures IsPathTo([Ignore, a], x, f, depth, mod) <==> (!f && x == []) || IsPath(a, x, f, depth, mod)
    {
      IgnoredPath(a, x, f, depth, mod);
    }
    forall y: seq<Event>
      ensures IsPath(Return, y, full, depth, mod) <==> y == [DoReturn]
    {
      LeafPath(A.Assume(Lit(1)), y, full, depth, mod);
    }
  }

  lemma IgnoredPath(a: Action, es: seq<Event>, full: bool, depth: nat, mod: Callees)
    ensures IsPathTo([Ignore, a], es, full, depth, mod) <==> (!full && es == []) || IsPath(a, es, full, depth, mod)
  {
    hide IsPath, IsPathTo;
    LastOnPath([Ignore], a, [Ignore, a], es, full, depth, mod);
    forall x: seq<Event>, f: bool
      ensures IsPathTo([Ignore], x, f, depth, mod) <==> x == []
    {
      OneOnPath(Ignore, x, f, depth, mod);
      LeafPath(A.Assume(Lit(1)), x, f, depth, mod);
    }
    if IsPath(a, es, full, depth, mod) {
      assert es == [] + es;
    }
    forall x: seq<Event>, y: seq<Event> | es == x + y && x == []
      ensures es == y
    {
    }
  }

  ghost predicate IsPathAt(a: Action, pos: int, es: seq<Event>, full: bool, depth: nat, mod: Callees)
  {
    if a.Seq? then IsPathTo(a.elems[..Position(a, pos)], es, full, depth, mod) else IsPath(a, es, full, depth, mod)
  }

  /** Whatever the assignment answers, what is meant is a path of the program. */
  lemma {:induction false} DenoteIsPath(a: Action, n: Annot, scope: Env, pos: int, stops: bool, eval: Sym -> bool,
                                        mod: Callees, depth: nat)
    requires (if a.Seq? then depth + 1 else depth) >= Size(n)
    requires Denote(a, n, scope, pos, stops, eval, mod).Some?
    ensures IsPathAt(a, pos, Events(Denote(a, n, scope, pos, stops, eval, mod).value), !stops, depth, mod)
    decreases Size(n), Weight(a), 2
  {
    hide IsPathTo;
    if n.Rename? {
      DenoteIsPath(a, n.arg, Entered(scope, n.m), pos, stops, eval, mod, depth);
      return;
    }
    match a
    case Seq(es) => SequenceIsPath(a, n, scope, pos, stops, eval, mod, depth);
    case If(some, thn, els) => IfIsPath(a, n, scope, pos, stops, eval, mod, depth);
    case Choice(bs) =>
      ChoiceUnited(bs, n, scope, stops, eval, mod);
      var k := LastTrue(UniteAnnot(n), scope, eval);
      WholeIsPath(bs[k], UniteAnnot(n)[k].ann, scope, stops, eval, mod, depth);
    case Call(name) => if name in mod { CallIsPath(a, n, scope, pos, stops, eval, mod, depth); }
    case While(x) => WholeIsPath(x, n, scope, stops, eval, mod, depth);
    case Local(b) => WholeIsPath(b, n, scope, stops, eval, mod, depth);
    case Fail(x) =>
      WholeIsPath(x, n, scope, stops, eval, mod, depth);
      EventsBoth(Denote(x, n, scope, -1, stops, eval, mod).value, [Told(Failed, map[])]);
      assert Events([Told(Failed, map[])]) == [Failed];
    case _ =>
  }

  lemma {:induction false} WholeIsPath(a: Action, n: Annot, scope: Env, stops: bool, eval: Sym -> bool,
                                       mod: Callees, depth: nat)
    requires depth >= Size(n) && Denote(a, n, scope, -1, stops, eval, mod).Some?
    ensures IsPath(a, Events(Denote(a, n, scope, -1, stops, eval, mod).value), !stops, depth, mod)
    decreases Size(n), Weight(a), 3
  {
    hide Denote, IsPathTo;
    DenoteIsPath(a, n, scope, -1, stops, eval, mod, depth);
    if a.Seq? { assert a.elems[..Position(a, -1)] == a.elems; }
  }

  lemma {:induction false} SequenceIsPath(a: Action, n: Annot, scope: Env, pos: int, stops: bool, eval: Sym -> bool,
                                          mod: Callees, depth: nat)
    requires a.Seq? && !n.Rename? && depth + 1 >= Size(n)
    requires Denote(a, n, scope, pos, stops, eval, mod).Some?
    ensures IsPathAt(a, pos, Events(Denote(a, n, scope, pos, stops, eval, mod).value), !stops, depth, mod)
    decreases Size(n), 0, 1
  {
    hide IsPath, IsPathTo;
    var p := Position(a, pos);
    NoneOnPath(depth, mod);
    if p > 0 {
      assert a.elems[..p] == a.elems[..p - 1] + [a.elems[p - 1]];
      var es := Events(Denote(a, n, scope, pos, stops, eval, mod).value);
      LastOnPath(a.elems[..p - 1], a.elems[p - 1], a.elems[..p], es, !stops, depth, mod);
      if n.Branch? {
        if Ask(eval, scope, n.cond) {
          DenoteIsPath(a, n.thn, scope, p, stops, eval, mod, depth);
        } else {
          DenoteIsPath(a, n.els, scope, p - 1, stops, eval, mod, depth);
        }
      } else {
        DenoteIsPath(a, n.left, scope, p - 1, false, eval, mod, depth);
        WholeIsPath(a.elems[p - 1], n.right, scope, stops, eval, mod, depth);
        EventsBoth(Denote(a, n.left, scope, p - 1, false, eval, mod).value,
                   Denote(a.elems[p - 1], n.right, scope, -1, stops, eval, mod).value);
      }
    }
  }

  lemma {:induction false} IfIsPath(a: Action, n: Annot, scope: Env, pos: int, stops: bool, eval: Sym -> bool,
                                    mod: Callees, depth: nat)
    requires a.If? && !n.Rename? && depth >= Size(n)
    requires Denote(a, n, scope, pos, stops, eval, mod).Some?
    ensures IsPath(a, Events(Denote(a, n, scope, pos, stops, eval, mod).value), !stops, depth, mod)
    decreases Size(n), 0, 1
  {
    hide IsPathTo;
    if Ask(eval, scope, n.cond) {
      BranchIsPath(a.some, a.thn, n.thn, scope, stops, eval, mod, depth);
    } else if a.els.Some? {
      BranchIsPath(a.some, a.els.value, n.els, scope, stops, eval, mod, depth);
    }
  }

  lemma {:induction false} BranchIsPath(some: bool, b: Action, n: Annot, scope: Env, stops: bool, eval: Sym -> bool,
                                        mod: Callees, depth: nat)
    requires depth >= Size(n) && Denote(Wrapped(some, b), n, scope, -1, stops, eval, mod).Some?
    ensures Behind(some, b, Events(Denote(Wrapped(some, b), n, scope, -1, stops, eval, mod).value), !stops, depth, mod)
    decreases Size(n), Weight(Wrapped(some, b)), 4
  {
    hide Denote, IsPathTo, IsPath;
    if some {
      var w := Wrapped(some, b);
      DenoteIsPath(w, n, scope, -1, stops, eval, mod, depth);
      assert w.elems[..Position(w, -1)] == [Leaf(A.Assume(Lit(1))), b];
      WrappedPath(b, Events(Denote(w, n, scope, -1, stops, eval, mod).value), !stops, depth, mod);
    } else {
      WholeIsPath(b, n, scope, stops, eval, mod, depth);
    }
  }

  lemma {:induction false} CallIsPath(a: Action, n: Annot, scope: Env, pos: int, stops: bool, eval: Sym -> bool,
                                      mod: Callees, depth: nat)
    requires a.Call? && a.name in mod && !n.Rename? && depth >= Size(n)
    requires Denote(a, n, scope, pos, stops, eval, mod).Some?
    ensures IsPath(a, Events(Denote(a, n, scope, pos, stops, eval, mod).value), !stops, depth, mod)
    decreases Size(n), 0, 4
  {
    hide IsPathTo;
    var body := Seq([Ignore, mod[a.name], Return]);
    DenoteIsPath(body, n, scope, -1, stops, eval, mod, depth - 1);
    assert body.elems[..Position(body, -1)] == [Ignore, mod[a.name], Return];
    var inner := Denote(body, n, scope, -1, stops, eval, mod).value;
    ReturnPath(mod[a.name], Events(inner), !stops, depth - 1, mod);
    EventsBoth([Told(Handle(a), scope)], inner);
    assert Events([Told(Handle(a), scope)]) == [Handle(a)];
  }

  /** On annotations that fit, every walk hands over, in order, exactly the actions of the path that the
      assignment chooses, and that is a path of the program: a whole one, or with stops one that may end early. */
  lemma WalkIsPath(a: Action, n: Annot, stops: bool, eval: Sym -> bool, mod: Callees, r: Walked)
    requires Tidy(n, map[], eval) && Settled(n, map[], eval) && Denote(a, n, map[], -1, stops, eval, mod).Some?
    requires Walks(a, n, map[], -1, eval, mod, r)
    ensures !r.misfit && !r.gaveUp && IsPath(a, Events(r.log), !stops, Size(n), mod)
  {
    hide Walks, Denote, IsPath;
    WalkFaithful(a, n, map[], map[], -1, stops, eval, mod, r);
    WholeIsPath(a, n, map[], stops, eval, mod, Size(n));
  }

  // ----- the walk with one environment, changed in place -----

  /** Some of the entries of a renaming, looked up all at once, and what they overwrite. */
  function Enters(env: Env, m: Renaming, done: set<Sym>): Env
  {
    env + map x | x in done && x in m :: Lookup(env, m[x])
  }

  function Saved(env: Env, done: set<Sym>): Env
  {
    map x | x in done && x in env :: env[x]
  }

  lemma EntersGet(env: Env, m: Renaming, done: set<Sym>, x: Sym)
    ensures Lookup(Enters(env, m, done), x) == if x in done && x in m then Lookup(env, m[x]) else Lookup(env, x)
  {
  }

  lemma EntersMore(env: Env, m: Renaming, done: set<Sym>, x: Sym)
    requires Idempotent(m) && x in m
    ensures var now := Enters(env, m, done);
            Enters(env, m, done + {x}) == now[x := Lookup(now, m[x])]
  {
    EntersGet(env, m, done, m[x]);
    assert m[x] in m ==> m[m[x]] == m[x];
    hide Lookup, Idempotent;
  }

  lemma SavedMore(env: Env, done: set<Sym>, x: Sym)
    requires x !in done
    ensures Saved(env, done + {x}) == if x in env then Saved(env, done)[x := env[x]] else Saved(env, done)
  {
  }

  /** Entering entry by entry overwrites what is listed and nothing else. */
  lemma {:induction false} EnterEachKeys(env: Env, m: Renaming, order: seq<Sym>, x: Sym)
    requires forall y :: y in order ==> y in m
    ensures x in EnterEach(env, m, order) <==> x in env || x in order
    ensures x in env && x !in order ==> EnterEach(env, m, order)[x] == env[x]
  {
    if order != [] {
      var n := |order| - 1;
      EnterEachKeys(env, m, order[..n], x);
      assert order == order[..n] + [order[n]];
    }
  }

  /** Entry by entry is all at once when no entry's value is renamed by another. */
  lemma {:induction false} EnterEachIs(env: Env, m: Renaming, order: seq<Sym>)
    requires Idempotent(m) && forall x :: x in order ==> x in m
    ensures EnterEach(env, m, order) == Enters(env, m, Elements(order))
  {
    if order != [] {
      var n := |order| - 1;
      EnterEachIs(env, m, order[..n]);
      EntersMore(env, m, Elements(order[..n]), order[n]);
      assert order == order[..n] + [order[n]];
      assert Elements(order) == Elements(order[..n]) + {order[n]};
    }
  }

  lemma EnterWhole(env: Env, m: Renaming, order: seq<Sym>)
    requires Idempotent(m) && OrderOf(order, m)
    ensures EnterEach(env, m, order) == Entered(env, m)
  {
    hide EnterEach, Once, Idempotent, Lookup;
    EnterEachIs(env, m, order);
    assert Elements(order) == m.Keys;
    assert Enters(env, m, m.Keys) == Entered(env, m);
  }

  lemma {:induction false} Listed(xs: set<Sym>) returns (order: seq<Sym>)
    ensures Once(order) && forall x :: x in order <==> x in xs
  {
    if xs == {} {
      order := [];
    } else {
      var x :| x in xs;
      var rest := Listed(xs - {x});
      order := rest + [x];
    }
  }

  /** The first two entries decide what the first of them stands for. */
  lemma {:induction false} EnterFirst(env: Env, m: Renaming, head: seq<Sym>, rest: seq<Sym>, x: Sym)
    requires (forall y :: y in head + rest ==> y in m) && x !in rest && x in head
    ensures forall y :: y in head ==> y in m
    ensures forall y :: y in EnterEach(env, m, head) ==> y in EnterEach(env, m, head + rest)
    ensures x in EnterEach(env, m, head) && EnterEach(env, m, head + rest)[x] == EnterEach(env, m, head)[x]
  {
    forall y | y in head ensures y in m { assert y in head + rest; }
    EnterEachKeys(env, m, head, x);
    if rest == [] {
      assert head + rest == head;
    } else {
      var n := |rest| - 1;
      assert (head + rest)[..|head| + n] == head + rest[..n];
      forall y | y in head + rest[..n] ensures y in m { assert y in head + rest; }
      EnterFirst(env, m, head, rest[..n], x);
    }
  }

  lemma OrderFrom(m: Renaming, x: Sym, y: Sym) returns (rest: seq<Sym>)
    requires x in m && y in m && x != y
    ensures OrderOf([x, y] + rest, m) && OrderOf([y, x] + rest, m) && x !in rest
  {
    rest := Listed(m.Keys - {x, y});
    forall z
      ensures z in [x, y] + rest <==> z in m
      ensures z in [y, x] + rest <==> z in m
    {
      assert z in [x, y] + rest <==> z == x || z == y || z in rest;
      assert z in [y, x] + rest <==> z == x || z == y || z in rest;
    }
  }

  ghost predicate AnyOrder(m: Renaming)
  {
    forall env: Env, o: seq<Sym>, p: seq<Sym> :: OrderOf(o, m) && OrderOf(p, m) ==>
      EnterEach(env, m, o) == EnterEach(env, m, p)
  }

  /** The order of the entries does not matter exactly when no entry's value is renamed by another entry. */
  lemma OrderIrrelevant(m: Renaming)
    ensures AnyOrder(m) <==> Idempotent(m)
  {
    hide EnterEach, Once;
    if Idempotent(m) {
      forall env: Env, o: seq<Sym>, p: seq<Sym> | OrderOf(o, m) && OrderOf(p, m)
        ensures EnterEach(env, m, o) == EnterEach(env, m, p)
      {
        EnterWhole(env, m, o);
        EnterWhole(env, m, p);
      }
    } else {
      var x :| x in m && m[x] in m && m[m[x]] != m[x];
      var o, p := OrderMatters(m, x);
    }
  }

  /** Whatever the order, x stands for what the renaming says. */
  ghost predicate SureOf(m: Renaming, x: Sym)
  {
    forall env: Env, order: seq<Sym> :: OrderOf(order, m) && (forall y :: y in order ==> y in m) ==>
      Lookup(EnterEach(env, m, order), x) == Lookup(Entered(env, m), x)
  }

  /** And symbol by symbol: the order does not matter to x exactly if the value of its entry is not renamed by another
      entry. */
  lemma SteadyExact(m: Renaming, x: Sym)
    ensures SureOf(m, x) <==> Steady(m, x)
  {
    hide EnterEach, Once, Lookup, Entered;
    if Steady(m, x) {
      forall env: Env, order: seq<Sym> | OrderOf(order, m) && forall y :: y in order ==> y in m
        ensures Lookup(EnterEach(env, m, order), x) == Lookup(Entered(env, m), x)
      {
        EnterEachGet(env, m, order, x);
        EnteredGet(env, m, x);
        LookupEither(m, x);
        assert x in Elements(order) <==> x in m;
      }
    } else {
      var o, p := OrderMatters(m, x);
      OrderListed(m, o);
      OrderListed(m, p);
      assert Lookup(EnterEach(map[], m, o), x) != Lookup(EnterEach(map[], m, p), x);
    }
  }

  lemma OrderListed(m: Renaming, order: seq<Sym>)
    requires OrderOf(order, m)
    ensures forall y :: y in order ==> y in m
  {
    forall y | y in order
      ensures y in m
    {
      assert y in Elements(order);
    }
  }

  /** An entry whose value is renamed by another entry stands for one name or another. */
  lemma OrderMatters(m: Renaming, x: Sym) returns (o: seq<Sym>, p: seq<Sym>)
    requires x in m && m[x] in m && m[m[x]] != m[x]
    ensures OrderOf(o, m) && OrderOf(p, m)
    ensures Lookup(EnterEach(map[], m, o), x) == m[x] && Lookup(EnterEach(map[], m, p), x) == m[m[x]]
  {
    hide EnterEach, Once;
    var y := m[x];
    var rest := OrderFrom(m, x, y);
    o, p := [x, y] + rest, [y, x] + rest;
    EnterFirst(map[], m, [x, y], rest, x);
    EnterFirst(map[], m, [y, x], rest, x);
    EnterTwo(m, x, y);
    EnterTwo(m, y, x);
  }

  lemma EnterTwo(m: Renaming, x: Sym, y: Sym)
    requires x in m && y in m && x != y
    ensures var now := map[x := m[x]];
            EnterEach(map[], m, [x, y]) == now[y := Lookup(now, m[y])]
  {
    assert [x, y][..1] == [x] && [x][..0] == [];
    assert EnterEach(map[], m, [x]) == map[x := m[x]];
  }

  class Walker {
    var env: Env
    var log: seq<Told>
    var misfit: bool
    const eval: Sym -> bool
    const mod: Callees

    constructor (eval: Sym -> bool, mod: Callees)
      ensures env == map[] && log == [] && !misfit && this.eval == eval && this.mod == mod
    {
      env, log, misfit := map[], [], false;
      this.eval := eval;
      this.mod := mod;
    }

    /** Enters a renaming entry by entry, in no particular order, and gives back what it has overwritten. */
    method Enter(m: Renaming) returns (save: Env)
      modifies this`env
      ensures exists order ::
                OrderOf(order, m) && (forall x :: x in order ==> x in m) && env == EnterEach(old(env), m, order)
      ensures Idempotent(m) ==> env == Entered(old(env), m)
      ensures save == map x | x in m && x in old(env) :: old(env)[x]
    {
      save := map[];
      ghost var order: seq<Sym> := [];
      var keys := m.Keys;
      while keys != {}
        invariant forall x :: x in keys || x in order <==> x in m
        invariant (forall x :: x in order ==> x !in keys) && Once(order)
        invariant env == EnterEach(old(env), m, order) && save == Saved(old(env), Elements(order))
        decreases keys
      {
        var x :| x in keys;
        EnterEachKeys(old(env), m, order, x);
        SavedMore(old(env), Elements(order), x);
        assert Elements(order + [x]) == Elements(order) + {x};
        assert (order + [x])[..|order|] == order;
        if x in env {
          save := save[x := env[x]];
        }
        env := env[x := Lookup(env, m[x])];
        order := order + [x];
        keys := keys - {x};
      }
      if Idempotent(m) { EnterWhole(old(env), m, order); }
    }

    /** Walks an action along its annotation; tells whether the walk was given up. */
    method Recur(a: Action, n: Annot, pos: int) returns (gaveUp: bool, ghost w: Walked)
      modifies this
      ensures Walks(a, n, old(env), pos, eval, mod, w) && Tells(w, gaveUp, old(log), old(misfit))
      decreases Size(n), Weight(a), 2
    {
      hide EnterEach, Ask, Lookup, Restored;
      if n.Rename? {
        gaveUp, w := RecurRename(a, n, pos);
        return;
      }
      match a {
        case Seq(_) => gaveUp, w := RecurSequence(a, n, pos);
        case If(_, _, _) => gaveUp, w := RecurIf(a, n);
        case Choice(bs) => gaveUp, w := RecurChoice(a, n);
        case Call(name) => gaveUp, w := RecurCall(a, n);
        case While(x) => gaveUp, w := Recur(x, n, -1);
        case Local(b) => gaveUp, w := Recur(b, n, -1);
        case Fail(x) => gaveUp, w := RecurFail(a, n);
        case Return =>
          gaveUp, w := false, Walked([Told(DoReturn, env)], env, false, false);
          log := log + [Told(DoReturn, env)];
        case Ignore => gaveUp, w := false, Walked([], env, false, false);
        case Leaf(_) =>
          gaveUp, w := false, Walked([Told(Handle(a), env)], env, false, false);
          log := log + [Told(Handle(a), env)];
      }
    }

    method RecurCall(a: Action, n: Annot) returns (gaveUp: bool, ghost w: Walked)
      requires a.Call? && !n.Rename?
      modifies this
      ensures Walks(a, n, old(env), -1, eval, mod, w) && Tells(w, gaveUp, old(log), old(misfit))
      decreases Size(n), 1, 1
    {
      ghost var before := env;
      log := log + [Told(Handle(a), env)];
      gaveUp, w := false, Walked([], env, false, false);
      if a.name in mod {
        gaveUp, w := Recur(Seq([Ignore, mod[a.name], Return]), n, -1);
      }
      w := w.(log := [Told(Handle(a), before)] + w.log);
    }

    method RecurFail(a: Action, n: Annot) returns (gaveUp: bool, ghost w: Walked)
      requires a.Fail? && !n.Rename?
      modifies this
      ensures Walks(a, n, old(env), -1, eval, mod, w) && Tells(w, gaveUp, old(log), old(misfit))
      decreases Size(n), Weight(a), 1
    {
      gaveUp, w := Recur(a.inner, n, -1);
      if !gaveUp {
        log, w := log + [Told(Failed, map[])], w.(log := w.log + [Told(Failed, map[])]);
      }
    }

    /** What has been told, and the environment left behind unless the walk was given up. */
    ghost predicate Tells(w: Walked, gaveUp: bool, log0: seq<Told>, misfit0: bool)
      reads this
    {
      gaveUp == w.gaveUp && log == log0 + w.log && misfit == (misfit0 || w.misfit) && (!gaveUp ==> env == w.env)
    }

    method RecurRename(a: Action, n: Annot, pos: int) returns (gaveUp: bool, ghost w: Walked)
      requires n.Rename?
      modifies this
      ensures Walks(a, n, old(env), pos, eval, mod, w) && Tells(w, gaveUp, old(log), old(misfit))
      decreases Size(n), Weight(a), 1
    {
      hide EnterEach, Walks, OrderOf;
      ghost var before := env;
      var save := Enter(n.m);
      ghost var order: seq<Sym> :|
        OrderOf(order, n.m) && (forall x :: x in order ==> x in n.m) && env == EnterEach(before, n.m, order);
      ghost var inner;
      gaveUp, inner := Recur(a, n.arg, pos);
      if !gaveUp {
        env := env + save;
      }
      w := Outside(inner, before, n.m);
      RenameWalked(a, n, before, pos, eval, mod, order, inner);
    }

    method RecurSequence(a: Action, n: Annot, pos: int) returns (gaveUp: bool, ghost w: Walked)
      requires a.Seq? && !n.Rename?
      modifies this
      ensures Walks(a, n, old(env), pos, eval, mod, w) && Tells(w, gaveUp, old(log), old(misfit))
      decreases Size(n), 0, 1
    {
      var p := Position(a, pos);
      gaveUp, w := false, Walked([], env, false, false);
      if p == 0 {
        w := w.(misfit := n != Empty);
        misfit := misfit || n != Empty;
      } else if n.Branch? {
        if Ask(eval, env, n.cond) {
          gaveUp, w := Recur(a, n.thn, p);
        } else {
          gaveUp, w := Recur(a, n.els, p - 1);
        }
      } else if n.Compose? {
        gaveUp, w := RecurStep(a, n, pos);
      } else {
        misfit, w := true, w.(misfit := true);
      }
    }

    method RecurStep(a: Action, n: Annot, pos: int) returns (gaveUp: bool, ghost w: Walked)
      requires a.Seq? && n.Compose? && Position(a, pos) > 0
      modifies this
      ensures Walks(a, n, old(env), pos, eval, mod, w) && Tells(w, gaveUp, old(log), old(misfit))
      decreases Size(n), 0, 0
    {
      var p := Position(a, pos);
      gaveUp, w := Recur(a, n.left, p - 1);
      if !gaveUp {
        ghost var q;
        gaveUp, q := Recur(a.elems[p - 1], n.right, -1);
        w := Then(w, q);
      }
    }

    method RecurIf(a: Action, n: Annot) returns (gaveUp: bool, ghost w: Walked)
      requires a.If? && !n.Rename?
      modifies this
      ensures Walks(a, n, old(env), -1, eval, mod, w) && Tells(w, gaveUp, old(log), old(misfit))
      decreases Size(n), 0, 0
    {
      gaveUp, w := false, Walked([], env, false, false);
      if !n.Branch? {
        misfit, w := true, w.(misfit := true);
      } else if Ask(eval, env, n.cond) {
        gaveUp, w := Recur(Wrapped(a.some, a.thn), n.thn, -1);
      } else if a.els.Some? {
        gaveUp, w := Recur(Wrapped(a.some, a.els.value), n.els, -1);
      }
    }

    /** Tries the branches from the last to the first. */
    method RecurChoice(a: Action, n: Annot) returns (gaveUp: bool, ghost w: Walked)
      requires a.Choice? && !n.Rename?
      modifies this
      ensures Walks(a, n, old(env), -1, eval, mod, w) && Tells(w, gaveUp, old(log), old(misfit))
      decreases Size(n), 0, 0
    {
      hide Lookup, LastTrue;
      var bs, ns := a.branches, UniteAnnot(n);
      gaveUp, w := false, Walked([], env, false, false);
      if !n.Branch? || |ns| != |bs| {
        misfit, w := true, w.(misfit := true);
        return;
      }
      var i := |bs|;
      while i > 0
        invariant 0 <= i <= |bs|
        invariant forall k :: i <= k < |bs| ==> !Ask(eval, env, ns[k].cond)
        invariant env == old(env) && log == old(log) && misfit == old(misfit)
      {
        i := i - 1;
        if Ask(eval, env, ns[i].cond) {
          LastTrueIs(ns, env, eval, i);
          gaveUp, w := Recur(bs[i], ns[i].ann, -1);
          return;
        }
      }
      NoneTrue(ns, env, eval);
      gaveUp, w := true, Walked([], env, false, true);
    }
  }

  /** Every walk ends, one way or another. */
  lemma {:induction false} WalkEnds(a: Action, n: Annot, env: Env, pos: int, eval: Sym -> bool, mod: Callees)
    returns (r: Walked)
    ensures Walks(a, n, env, pos, eval, mod, r)
    decreases Size(n), Weight(a), 1
  {
    hide EnterEach, Ask, Restored, Entered, LastTrue, OrderOf, Lookup;
    r := Walked([], env, false, false);
    if n.Rename? {
      var order := Listed(n.m.Keys);
      assert OrderOf(order, n.m) by { ListedOrder(order, n.m); }
      var inner := WalkEnds(a, n.arg, EnterEach(env, n.m, order), pos, eval, mod);
      RenameWalked(a, n, env, pos, eval, mod, order, inner);
      return Outside(inner, env, n.m);
    }
    match a
    case Seq(_) => r := SequenceEnds(a, n, env, pos, eval, mod);
    case If(some, thn, els) =>
      if !n.Branch? { r := r.(misfit := true); }
      else if Ask(eval, env, n.cond) { r := WalkEnds(Wrapped(some, thn), n.thn, env, -1, eval, mod); }
      else if els.Some? { r := WalkEnds(Wrapped(some, els.value), n.els, env, -1, eval, mod); }
    case Choice(bs) =>
      var ns := UniteAnnot(n);
      var k := LastTrue(ns, env, eval);
      if !n.Branch? || |ns| != |bs| { r := r.(misfit := true); }
      else if k == |ns| { r := r.(gaveUp := true); }
      else { r := WalkEnds(bs[k], ns[k].ann, env, -1, eval, mod); }
    case Call(name) =>
      if name in mod { r := WalkEnds(Seq([Ignore, mod[name], Return]), n, env, -1, eval, mod); }
      r := r.(log := [Told(Handle(a), env)] + r.log);
    case While(x) => r := WalkEnds(x, n, env, -1, eval, mod);
    case Local(b) => r := WalkEnds(b, n, env, -1, eval, mod);
    case Fail(x) =>
      r := WalkEnds(x, n, env, -1, eval, mod);
      if !r.gaveUp { r := r.(log := r.log + [Told(Failed, map[])]); }
    case Return => r := r.(log := [Told(DoReturn, env)]);
    case Ignore =>
    case Leaf(_) => r := r.(log := [Told(Handle(a), env)]);
  }

  lemma ListedOrder(order: seq<Sym>, m: Renaming)
    requires Once(order) && forall x :: x in order <==> x in m.Keys
    ensures OrderOf(order, m)
  {
  }

  lemma {:induction false} SequenceEnds(a: Action, n: Annot, env: Env, pos: int, eval: Sym -> bool, mod: Callees)
    returns (r: Walked)
    requires a.Seq? && !n.Rename?
    ensures Walks(a, n, env, pos, eval, mod, r)
    decreases Size(n), Weight(a), 0
  {
    hide EnterEach, Ask;
    r := Walked([], env, false, false);
    var p := Position(a, pos);
    if p == 0 {
      r := r.(misfit := n != Empty);
    } else if n.Branch? {
      if Ask(eval, env, n.cond) {
        r := WalkEnds(a, n.thn, env, p, eval, mod);
      } else {
        r := WalkEnds(a, n.els, env, p - 1, eval, mod);
      }
    } else if n.Compose? {
      r := WalkEnds(a, n.left, env, p - 1, eval, mod);
      if !r.gaveUp {
        var q := WalkEnds(a.elems[p - 1], n.right, r.env, -1, eval, mod);
        r := Then(r, q);
      }
    } else {
      r := r.(misfit := true);
    }
  }

  lemma RenameWalked(a: Action, n: Annot, env: Env, pos: int, eval: Sym -> bool, mod: Callees, order: seq<Sym>,
                     inner: Walked)
    requires n.Rename? && OrderOf(order, n.m) && forall x :: x in order ==> x in n.m
    requires Walks(a, n.arg, EnterEach(env, n.m, order), pos, eval, mod, inner)
    ensures Walks(a, n, env, pos, eval, mod, Outside(inner, env, n.m))
  {
    hide EnterEach, OrderOf, Outside;
  }

  lemma {:induction false} LastTrueIs(bs: seq<AnnotBranch>, env: Env, eval: Sym -> bool, k: nat)
    requires k < |bs| && Ask(eval, env, bs[k].cond)
    requires forall j :: k < j < |bs| ==> !Ask(eval, env, bs[j].cond)
    ensures LastTrue(bs, env, eval) == k
  {
    if k < |bs| - 1 { LastTrueIs(bs[..|bs| - 1], env, eval, k); }
  }

  lemma {:induction false} NoneTrue(bs: seq<AnnotBranch>, env: Env, eval: Sym -> bool)
    requires forall j :: 0 <= j < |bs| ==> !Ask(eval, env, bs[j].cond)
    ensures LastTrue(bs, env, eval) == |bs|
  {
    if bs != [] { NoneTrue(bs[..|bs| - 1], env, eval); }
  }
}
