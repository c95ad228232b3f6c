/**
 How the kind of a symbol is read off its spelling, and for which program names that reading is right.
 */
module Spelling {
  import opened Names
  import opened Logic

  function HasPrefix(s: string, p: string): bool
  {
    |p| <= |s| && s[..|p|] == p
  }

  function IsNew(s: string): bool { HasPrefix(s, "new_") }

  function IsOld(s: string): bool { HasPrefix(s, "old_") }

  /** Two underscores in a row, anywhere. */
  predicate IsSkolem(s: string)
  {
    exists k :: 0 <= k < |s| && At(s, k)
  }

  predicate At(s: string, k: nat)
    requires k < |s|
  {
    k + 1 < |s| && s[k] == '_' && s[k + 1] == '_'
  }

  predicate Upper(c: char) { 'A' <= c <= 'Z' }

  /** Existential symbols of this form are never renamed. */
  predicate IsGlobalSkolem(s: string)
  {
    |s| >= 3 && s[0] == '_' && s[1] == '_' && Upper(s[2])
  }

  function Classify(s: string): Kind
  {
    if IsGlobalSkolem(s) then Rigid
    else if IsSkolem(s) then Skolem
    else if IsNew(s) then New
    else if IsOld(s) then Old
    else Base
  }

  /** The names for which the reading is right. */
  predicate ProgramName(s: string)
  {
    !IsSkolem(s) && !IsNew(s) && !IsOld(s) && (s != "" ==> s[0] != '_')
  }

  /** The names of existential symbols. */
  predicate SkolemName(s: string)
  {
    IsSkolem(s) && !IsGlobalSkolem(s)
  }

  predicate WellNamed(x: Sym)
  {
    match x.kind
    case Skolem => SkolemName(x.id.name)
    case Rigid => IsGlobalSkolem(x.id.name)
    case _ => ProgramName(x.id.name)
  }

  lemma PrefixSkolem(p: string, s: string)
    requires |p| == 4 && p[3] == '_' && p[0] != '_' && p[1] != '_' && p[2] != '_'
    ensures IsSkolem(p + s) <==> IsSkolem(s) || (s != "" && s[0] == '_')
    ensures !IsGlobalSkolem(p + s)
  {
    var t := p + s;
    if k :| 0 <= k < |s| && At(s, k) {
      assert At(t, k + 4);
    }
    if s != "" && s[0] == '_' {
      assert At(t, 3);
    }
    if k :| 0 <= k < |t| && At(t, k) {
      if k >= 4 { assert At(s, k - 4); }
    }
  }

  /** The value after the action of a symbol is mistaken for an existential symbol exactly when the name
      itself looks like one or begins with an underscore. */
  lemma NewNameMistaken(s: string)
    ensures IsSkolem("new_" + s) <==> IsSkolem(s) || (s != "" && s[0] == '_')
    ensures IsSkolem("old_" + s) <==> IsSkolem(s) || (s != "" && s[0] == '_')
  {
    PrefixSkolem("new_", s);
    PrefixSkolem("old_", s);
  }

  lemma UnderscoreMistaken()
    ensures !IsSkolem("_x") && Classify("_x") == Base && Classify("new_" + "_x") == Skolem
  {
    NewNameMistaken("_x");
    PrefixSkolem("new_", "_x");
    assert !At("_x", 0) && !At("_x", 1);
  }

  /** The spelling of a well-named symbol tells its kind. */
  lemma SpellClassify(x: Sym)
    requires WellNamed(x)
    ensures Classify(Spell(x)) == x.kind
  {
    var s := x.id.name;
    PrefixSkolem("new_", s);
    PrefixSkolem("old_", s);
    match x.kind
    case New => assert (("new_" + s)[..4]) == "new_";
    case Old => assert (("old_" + s)[..4]) == "old_"; assert ("old_" + s)[0] == 'o';
    case Rigid => assert At(s, 0);
    case _ =>
  }

  /** Different symbols are spelled differently. */
  lemma SpellInjective(x: Sym, y: Sym)
    requires WellNamed(x) && WellNamed(y) && Spell(x) == Spell(y) && x.id.arity == y.id.arity
    ensures x == y
  {
    SpellClassify(x);
    SpellClassify(y);
    match x.kind
    case New => assert ("new_" + x.id.name)[4..] == x.id.name && ("new_" + y.id.name)[4..] == y.id.name;
    case Old => assert ("old_" + x.id.name)[4..] == x.id.name && ("old_" + y.id.name)[4..] == y.id.name;
    case _ =>
  }

  /** The renamers make existential symbols: from program symbols with a prefix, if the name that follows
      does not make it a global one, and from existential symbols without. */
  lemma FreshSkolem(prefix: string, name: string, used: set<string>)
    requires SkolemName(prefix + name)
    ensures SkolemName(Fresh(prefix, name, used))
  {
    var thing := prefix + name;
    var r := Fresh(prefix, name, used);
    if r != thing {
      var k: nat :| r == Suffixed(thing, k);
      var j :| 0 <= j < |thing| && At(thing, j);
      assert r[..|thing|] == thing;
      assert At(r, j);
      assert |thing| >= 2;
      assert |thing| == 2 ==> r[2] == '_';
      assert |thing| >= 3 ==> r[2] == thing[2] && r[1] == thing[1] && r[0] == thing[0];
    }
  }

  /** Hiding and quantifying name a symbol by two underscores and its name; that is an existential symbol
      that can be renamed exactly when the name does not begin in upper case. */
  lemma HiddenName(s: string)
    ensures SkolemName("__" + s) <==> !(s != "" && Upper(s[0]))
  {
    assert At("__" + s, 0);
  }
}
