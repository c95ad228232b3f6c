/**
 A measure of actions under which the parts of "if some" and an inlined call are smaller than the whole.
 */
module Sizes {
  import opened Actions

  function Size(a: Action): (n: nat)
    ensures n >= 1
    decreases a, 1
  {
    match a
    case Sequence(es) => 1 + SizeAll(es)
    case Choice(bs) => 1 + SizeAll(bs)
    case If(_, thn, els) => 1 + Size(thn) + Size(els)
    case Local(_, body) => 1 + Size(body)
    case BindOldsAction(inner) => 1 + Size(inner)
    case While(_, _, _, body) => 1 + Size(body)
    case IfSome(_, thn, els) => 10 + Size(thn) + Size(els)
    case Call(_, _, callee, actuals, outs) => 10 + Size(callee) + |actuals| + |outs|
    case _ => 1
  }

  function SizeAll(es: seq<Action>): nat
    decreases es, 0
  {
    if es == [] then 0 else SizeAll(es[..|es| - 1]) + Size(es[|es| - 1])
  }

  lemma SizeSnoc(es: seq<Action>, a: Action)
    ensures SizeAll(es + [a]) == SizeAll(es) + Size(a)
  {
    assert (es + [a])[..|es|] == es;
  }

  lemma SizePair(a: Action, b: Action)
    ensures SizeAll([a, b]) == Size(a) + Size(b)
  {
    SizeSnoc([], a);
    SizeSnoc([a], b);
    assert [] + [a] == [a] && [a] + [b] == [a, b];
  }

  lemma {:induction false} SizeMember(es: seq<Action>, k: nat)
    requires k < |es|
    ensures Size(es[k]) <= SizeAll(es)
  {
    if k < |es| - 1 { SizeMember(es[..|es| - 1], k); }
  }

  lemma {:induction false} SizeOnes(es: seq<Action>)
    requires forall e :: e in es ==> e.Assign?
    ensures SizeAll(es) == |es|
  {
    if es != [] {
      SizeOnes(es[..|es| - 1]);
      assert es[|es| - 1] in es;
    }
  }
}
