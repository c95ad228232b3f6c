/**
 Spelling of symbols and generation of fresh names.

 A symbol of the transition-relation calculus is a string; what it stands for (a program symbol, its
 value before or after the action, an existentially quantified symbol) is read off its spelling.  This
 module models those tests on strings, the generator of fresh names, and the renamer built on it.
 */
module Names {

  // ----- decimal numerals -----

  function Digit(d: nat): char
    requires d < 10
  {
    ('0' as int + d) as char
  }

  function Decimal(n: nat): (s: string)
    ensures |s| >= 1
    ensures n >= 10 ==> |s| >= 2
  {
    if n < 10 then [Digit(n)] else Decimal(n / 10) + [Digit(n % 10)]
  }

  lemma {:induction false} DecimalInjective(m: nat, n: nat)
    requires Decimal(m) == Decimal(n)
    ensures m == n
  {
    var s, t := Decimal(m), Decimal(n);
    if m >= 10 && n >= 10 {
      assert s[..|s| - 1] == Decimal(m / 10) && t[..|t| - 1] == Decimal(n / 10);
      DecimalInjective(m / 10, n / 10);
      assert s[|s| - 1] == Digit(m % 10) && t[|t| - 1] == Digit(n % 10);
    } else {
      assert m < 10 && n < 10;
      assert s[0] == Digit(m) && t[0] == Digit(n);
    }
  }

  // ----- the stream of suffixes a, ..., z, a0, ..., z0, a1, ... -----

  function Letter(i: nat): char
    requires i < 26
  {
    ('a' as int + i) as char
  }

  /** The i-th suffix of the stream. */
  function Suffix(i: nat): string
  {
    [Letter(i % 26)] + if i < 26 then "" else Decimal(i / 26 - 1)
  }

  lemma SuffixInjective(i: nat, j: nat)
    requires Suffix(i) == Suffix(j)
    ensures i == j
  {
    var s, t := Suffix(i), Suffix(j);
    assert s[0] == Letter(i % 26) && t[0] == Letter(j % 26);
    assert i % 26 == j % 26;
    if i < 26 {
      assert |s| == 1 && j < 26;
    } else {
      assert |s| >= 2 && j >= 26;
      assert s[1..] == Decimal(i / 26 - 1) && t[1..] == Decimal(j / 26 - 1);
      DecimalInjective(i / 26 - 1, j / 26 - 1);
      assert i == 26 * (i / 26) + i % 26 && j == 26 * (j / 26) + j % 26;
    }
  }

  /** The stream as the stateful generator that the renamer draws from. */
  class NameGenerator {
    var phase: nat
    var idx: nat

    ghost predicate Valid()
      reads this
    {
      idx < 26
    }

    ghost function Drawn(): nat
      reads this
    {
      26 * phase + idx
    }

    constructor ()
      ensures Valid() && Drawn() == 0
    {
      phase, idx := 0, 0;
    }

    method Next() returns (s: string)
      requires Valid()
      modifies this
      ensures Valid() && Drawn() == old(Drawn()) + 1
      ensures s == Suffix(old(Drawn()))
    {
      var c := Letter(idx);
      var p := phase;
      ghost var i := Drawn();
      assert i % 26 == idx && i / 26 == p;
      idx := idx + 1;
      if idx >= 26 {
        phase := phase + 1;
        idx := 0;
      }
      s := [c] + if p == 0 then "" else Decimal(p - 1);
    }
  }

  // ----- unused names -----

  function Suffixed(base: string, i: nat): string
  {
    base + "_" + Suffix(i)
  }

  lemma SuffixedInjective(base: string, i: nat, j: nat)
    requires Suffixed(base, i) == Suffixed(base, j)
    ensures i == j
  {
    assert Suffixed(base, i)[|base| + 1..] == Suffix(i);
    assert Suffixed(base, j)[|base| + 1..] == Suffix(j);
    SuffixInjective(i, j);
  }

  /** The first name base_a, base_b, ... from the i-th on that is not used.  It exists because the
      stream never repeats a name, so every used name is met at most once. */
  function FirstUnused(base: string, used: set<string>, i: nat): (r: string)
    ensures r !in used
    ensures exists k: nat :: k >= i && r == Suffixed(base, k)
    decreases |used|
  {
    var name := Suffixed(base, i);
    if name !in used then
      name
    else
      var r := FirstUnused(base, used - {name}, i + 1);
      assert r != name by {
        var k: nat :| k >= i + 1 && r == Suffixed(base, k);
        if r == name { SuffixedInjective(base, i, k); }
      }
      r
  }

  lemma {:induction false} FirstUnusedIsFirst(base: string, used: set<string>, i: nat, k: nat)
    requires FirstUnused(base, used, i) == Suffixed(base, k)
    ensures k >= i && forall j: nat :: i <= j < k ==> Suffixed(base, j) in used
    decreases |used|
  {
    var name := Suffixed(base, i);
    if name !in used {
      SuffixedInjective(base, i, k);
    } else {
      FirstUnusedIsFirst(base, used - {name}, i + 1, k);
    }
  }

  lemma {:induction false} FirstUnusedSkip(base: string, used: set<string>, i: nat, gone: set<string>)
    requires forall k: nat :: k >= i ==> Suffixed(base, k) !in gone
    ensures FirstUnused(base, used - gone, i) == FirstUnused(base, used, i)
    decreases |used|
  {
    var name := Suffixed(base, i);
    if name in used {
      FirstUnusedSkip(base, used - {name}, i + 1, gone);
      assert used - {name} - gone == used - gone - {name};
    }
  }

  lemma UsedNameIsSkipped(base: string, used: set<string>, i: nat)
    requires Suffixed(base, i) in used
    ensures FirstUnused(base, used, i) == FirstUnused(base, used, i + 1)
    ensures forall k: nat :: k > i ==> Suffixed(base, k) != Suffixed(base, i)
  {
    forall k: nat | k > i
      ensures Suffixed(base, k) != Suffixed(base, i)
    {
      if Suffixed(base, k) == Suffixed(base, i) { SuffixedInjective(base, k, i); }
    }
    FirstUnusedSkip(base, used, i + 1, {Suffixed(base, i)});
  }

  method UnusedNameWithBase(base: string, used: set<string>) returns (name: string)
    ensures name == FirstUnused(base, used, 0)
  {
    var gen := new NameGenerator();
    ghost var left := used;
    while true
      invariant fresh(gen) && gen.Valid()
      invariant left <= used
      invariant FirstUnused(base, used, 0) == FirstUnused(base, used, gen.Drawn())
      invariant forall k: nat :: k >= gen.Drawn() && Suffixed(base, k) in used ==> Suffixed(base, k) in left
      decreases |left|
    {
      ghost var i := gen.Drawn();
      var suffix := gen.Next();
      name := base + "_" + suffix;
      assert name == Suffixed(base, i);
      if name !in used {
        return;
      }
      UsedNameIsSkipped(base, used, i);
      left := left - {name};
    }
  }

  /** What the renamer with the given prefix answers for a name, given the names used so far. */
  function Fresh(prefix: string, name: string, used: set<string>): (r: string)
    ensures r !in used
  {
    var thing := prefix + name;
    if name != "" && thing !in used then thing else FirstUnused(thing, used, 0)
  }

  class UniqueRenamer {
    const prefix: string
    var used: set<string>

    constructor (prefix: string, used: set<string>)
      ensures this.prefix == prefix && this.used == used
    {
      this.prefix := prefix;
      this.used := used;
    }

    method Rename(name: string) returns (res: string)
      modifies this
      ensures res == Fresh(prefix, name, old(used))
      ensures used == old(used) + {res}
    {
      var thing := prefix + name;
      if name != "" {
        if thing !in used {
          res := thing;
        } else {
          res := UnusedNameWithBase(thing, used);
        }
      } else {
        res := UnusedNameWithBase(thing, used);
      }
      used := used + {res};
    }
  }
}
