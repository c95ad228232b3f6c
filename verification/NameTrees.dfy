/**
 Structured names such as a.b[c.d].e: the parser, the printer, and substitution in names.
 */
module NameTrees {

  datatype NameTree =
    | NameSymbol(name: string)
    | NameThis
    | NameDot(lhs: NameTree, rhs: NameTree)
    | NameBracket(lhs: NameTree, rhs: NameTree)

  function Unparse(t: NameTree): string
  {
    match t
    case NameSymbol(n) => n
    case NameThis => "this"
    case NameDot(l, r) => Unparse(l) + "." + Unparse(r)
    case NameBracket(l, r) => Unparse(l) + "[" + Unparse(r) + "]"
  }

  /** Replaces the first symbol of the name, and of every subscript; "this." disappears. */
  function Subst(t: NameTree, sub: map<string, string>, root: bool): NameTree
  {
    match t
    case NameSymbol(n) =>
      if root && n in sub then (if sub[n] == "this" then NameThis else NameSymbol(sub[n])) else t
    case NameThis => t
    case NameDot(l, r) =>
      var lhs, rhs := Subst(l, sub, root), Subst(r, sub, false);
      if lhs.NameThis? then rhs else NameDot(lhs, rhs)
    case NameBracket(l, r) => NameBracket(Subst(l, sub, root), Subst(r, sub, true))
  }

  // ----- the parser -----

  predicate Special(c: char) { c == '[' || c == ']' || c == '.' }

  /** Where the run of ordinary characters from pos on ends. */
  function SymbolEnd(s: string, pos: nat): (e: nat)
    requires pos <= |s|
    ensures pos <= e <= |s| && (e == |s| || Special(s[e]))
    ensures forall k :: pos <= k < e ==> !Special(s[k])
    decreases |s| - pos
  {
    if pos == |s| || Special(s[pos]) then pos else SymbolEnd(s, pos + 1)
  }

  /** The tree from pos on, and where it ends: at a closing bracket, after the end, or at the first
      character that does not continue the name. */
  function ParseFrom(s: string, pos: nat): (r: (NameTree, nat))
    requires pos <= |s|
    ensures r.1 >= pos
    decreases |s| - pos, 1
  {
    var e := SymbolEnd(s, pos);
    ParseRest(s, NameSymbol(s[pos..e]), e)
  }

  function ParseRest(s: string, pref: NameTree, pos: nat): (r: (NameTree, nat))
    ensures r.1 >= pos
    decreases if pos <= |s| then |s| - pos else 0, 0
  {
    if pos >= |s| || s[pos] == ']' then (pref, pos)
    else if s[pos] == '[' then
      var (suff, p) := ParseFrom(s, pos + 1);
      ParseRest(s, NameBracket(pref, suff), p + 1)
    else if s[pos] == '.' then
      var (suff, p) := ParseFrom(s, pos + 1);
      ParseRest(s, NameDot(pref, suff), p)
    else (pref, pos)
  }

  method ParseNameRecur(name: string, pos: nat) returns (pref: NameTree, endPos: nat)
    requires pos <= |name|
    ensures (pref, endPos) == ParseFrom(name, pos)
    decreases |name| - pos
  {
    endPos := SymbolEnd(name, pos);
    pref := NameSymbol(name[pos..endPos]);
    while endPos < |name| && name[endPos] != ']'
      invariant pos <= endPos
      invariant ParseRest(name, pref, endPos) == ParseFrom(name, pos)
      decreases |name| - endPos
    {
      hide ParseFrom, ParseRest;
      if name[endPos] == '[' {
        var suff, newPos := ParseNameRecur(name, endPos + 1);
        BracketStep(name, pref, endPos, suff, newPos + 1);
        pref := NameBracket(pref, suff);
        endPos := newPos + 1;
      } else if name[endPos] == '.' {
        var suff, newPos := ParseNameRecur(name, endPos + 1);
        DotStep(name, pref, endPos, suff, newPos);
        pref := NameDot(pref, suff);
        endPos := newPos;
      } else {
        break;
      }
    }
  }

  function ParseName(s: string): NameTree
  {
    ParseFrom(s, 0).0
  }

  // ----- well-formed names -----

  /** The number of brackets open after the first k characters. */
  function Depth(s: string, k: nat): int
    requires k <= |s|
  {
    if k == 0 then 0
    else if s[k - 1] == '[' then Depth(s, k - 1) + 1
    else if s[k - 1] == ']' then Depth(s, k - 1) - 1
    else Depth(s, k - 1)
  }

  /** Brackets are balanced, and a closing one is followed by another special character or nothing. */
  predicate WellFormed(s: string)
  {
    && (forall k :: 0 <= k <= |s| ==> Depth(s, k) >= 0)
    && Depth(s, |s|) == 0
    && (forall k :: 0 <= k < |s| && s[k] == ']' ==> Stops(s, k + 1))
  }

  predicate Stops(s: string, k: nat)
    requires k <= |s|
  {
    k == |s| || Special(s[k])
  }

  lemma {:induction false} SymbolDepth(s: string, pos: nat, e: nat)
    requires pos <= e <= |s| && forall k :: pos <= k < e ==> !Special(s[k])
    ensures Depth(s, e) == Depth(s, pos)
  {
    if pos < e { SymbolDepth(s, pos, e - 1); }
  }

  /** What the parser has read is what it will print. */
  ghost predicate Reads(s: string, pos: nat, r: (NameTree, nat))
    requires pos <= |s|
  {
    && pos <= r.1 <= |s| && Unparse(r.0) == s[pos..r.1]
    && (r.1 == |s| || s[r.1] == ']') && Depth(s, r.1) == Depth(s, pos)
  }

  lemma {:induction false} ParseFromReads(s: string, pos: nat)
    requires WellFormed(s) && pos <= |s|
    ensures Reads(s, pos, ParseFrom(s, pos))
    decreases |s| - pos, 1
  {
    var e := SymbolEnd(s, pos);
    SymbolDepth(s, pos, e);
    ParseRestReads(s, pos, NameSymbol(s[pos..e]), e);
  }

  lemma {:induction false} ParseRestReads(s: string, start: nat, pref: NameTree, pos: nat)
    requires WellFormed(s) && start <= pos <= |s| && Stops(s, pos)
    requires Unparse(pref) == s[start..pos] && Depth(s, pos) == Depth(s, start)
    ensures Reads(s, start, ParseRest(s, pref, pos))
    decreases |s| - pos, 0
  {
    hide WellFormed, ParseFrom, ParseRest, Depth;
    if pos == |s| || s[pos] == ']' {
      NoStep(s, pref, pos);
    } else {
      ParseFromReads(s, pos + 1);
      var (suff, p) := ParseFrom(s, pos + 1);
      if s[pos] == '[' {
        InsideBrackets(s, pos, p);
        BracketStep(s, pref, pos, suff, p + 1);
        SliceBracket(s, start, pos, p);
        ParseRestReads(s, start, NameBracket(pref, suff), p + 1);
      } else {
        DotDepth(s, pos);
        DotStep(s, pref, pos, suff, p);
        assert s[start..p] == s[start..pos] + "." + s[pos + 1..p];
        ParseRestReads(s, start, NameDot(pref, suff), p);
      }
    }
  }

  lemma NoStep(s: string, pref: NameTree, pos: nat)
    requires pos >= |s| || s[pos] == ']'
    ensures ParseRest(s, pref, pos) == (pref, pos)
  {
  }

  lemma BracketStep(s: string, l: NameTree, pos: nat, r: NameTree, e: nat)
    requires pos < |s| && s[pos] == '[' && ParseFrom(s, pos + 1) == (r, e - 1)
    ensures ParseRest(s, l, pos) == ParseRest(s, NameBracket(l, r), e)
  {
  }

  lemma DotStep(s: string, l: NameTree, pos: nat, r: NameTree, e: nat)
    requires pos < |s| && s[pos] == '.' && ParseFrom(s, pos + 1) == (r, e)
    ensures ParseRest(s, l, pos) == ParseRest(s, NameDot(l, r), e)
  {
  }

  lemma SliceBracket(s: string, start: nat, pos: nat, p: nat)
    requires start <= pos < p < |s| && s[pos] == '[' && s[p] == ']'
    ensures s[start..p + 1] == s[start..pos] + "[" + s[pos + 1..p] + "]"
  {
  }

  lemma DotDepth(s: string, pos: nat)
    requires pos < |s| && s[pos] == '.'
    ensures Depth(s, pos + 1) == Depth(s, pos)
  {
  }

  lemma InsideBrackets(s: string, pos: nat, p: nat)
    requires WellFormed(s) && pos < p <= |s| && s[pos] == '[' && Depth(s, p) == Depth(s, pos + 1)
    requires p == |s| || s[p] == ']'
    ensures p < |s| && Depth(s, p + 1) == Depth(s, pos) && Stops(s, p + 1)
  {
    assert Depth(s, pos + 1) == Depth(s, pos) + 1;
    assert Depth(s, pos) >= 0;
  }

  // ----- normal trees -----

  predicate Plain(n: string)
  {
    forall k :: 0 <= k < |n| ==> !Special(n[k])
  }

  /** A symbol with subscripts. */
  predicate Spine(t: NameTree)
    decreases t, 0
  {
    match t
    case NameSymbol(n) => Plain(n)
    case NameBracket(l, r) => Spine(l) && Normal(r)
    case _ => false
  }

  /** Nested to the right, with symbols free of brackets and dots. */
  predicate Normal(t: NameTree)
    decreases t, 1
  {
    match t
    case NameDot(l, r) => Spine(l) && Normal(r)
    case _ => Spine(t)
  }

  lemma {:induction false} ParseFromNormal(s: string, pos: nat)
    requires pos <= |s|
    ensures Normal(ParseFrom(s, pos).0)
    decreases |s| - pos, 1
  {
    ParseRestNormal(s, NameSymbol(s[pos..SymbolEnd(s, pos)]), SymbolEnd(s, pos));
  }

  /** After a dot the rest of the name has been read, up to a closing bracket or the first character that
      does not continue it. */
  lemma {:induction false} ParseRestNormal(s: string, pref: NameTree, pos: nat)
    requires Spine(pref) || (Normal(pref) && Done(s, pos))
    ensures Normal(ParseRest(s, pref, pos).0) && Done(s, ParseRest(s, pref, pos).1)
    decreases if pos <= |s| then |s| - pos else 0, 0
  {
    if pos < |s| && (s[pos] == '[' || s[pos] == '.') {
      ParseFromNormal(s, pos + 1);
      var (suff, p) := ParseFrom(s, pos + 1);
      if s[pos] == '[' {
        ParseRestNormal(s, NameBracket(pref, suff), p + 1);
      } else {
        ParseFromDone(s, pos + 1);
        ParseRestNormal(s, NameDot(pref, suff), p);
      }
    }
  }

  predicate Done(s: string, pos: nat)
  {
    pos >= |s| || (s[pos] != '[' && s[pos] != '.')
  }

  lemma {:induction false} ParseFromDone(s: string, pos: nat)
    requires pos <= |s|
    ensures Done(s, ParseFrom(s, pos).1)
  {
    var e := SymbolEnd(s, pos);
    ParseRestDone(s, NameSymbol(s[pos..e]), e);
  }

  lemma {:induction false} ParseRestDone(s: string, pref: NameTree, pos: nat)
    ensures Done(s, ParseRest(s, pref, pos).1)
    decreases if pos <= |s| then |s| - pos else 0
  {
    if pos < |s| && (s[pos] == '[' || s[pos] == '.') {
      var (suff, p) := ParseFrom(s, pos + 1);
      if s[pos] == '[' {
        ParseRestDone(s, NameBracket(pref, suff), p + 1);
      } else {
        ParseRestDone(s, NameDot(pref, suff), p);
      }
    }
  }

  // ----- printing a normal tree gives a well-formed name -----

  lemma {:induction false} DepthAppend(s: string, t: string, k: nat)
    requires k <= |t|
    ensures Depth(s + t, |s| + k) == Depth(s, |s|) + Depth(t, k)
  {
    if k == 0 {
      DepthPrefix(s, t, |s|);
    } else {
      DepthAppend(s, t, k - 1);
      assert (s + t)[|s| + k - 1] == t[k - 1];
    }
  }

  lemma {:induction false} DepthPrefix(s: string, t: string, k: nat)
    requires k <= |s|
    ensures Depth(s + t, k) == Depth(s, k)
  {
    if k > 0 {
      DepthPrefix(s, t, k - 1);
      assert (s + t)[k - 1] == s[k - 1];
    }
  }

  /** Two well-formed names with a special character between them. */
  lemma WellFormedJoin(s: string, c: string, t: string)
    requires WellFormed(s) && WellFormed(t) && |c| == 1 && c[0] == '.'
    ensures WellFormed(s + c + t)
  {
    var r := s + c + t;
    forall k | 0 <= k <= |r|
      ensures Depth(r, k) >= 0 && (k == |r| ==> Depth(r, k) == 0)
    {
      JoinDepth(s, c, t, k);
    }
    forall k | 0 <= k < |r| && r[k] == ']'
      ensures Stops(r, k + 1)
    {
      if k < |s| { assert s[k] == ']' && Stops(s, k + 1); } else { assert t[k - |s| - 1] == ']' && Stops(t, k - |s|); }
    }
  }

  lemma JoinDepth(s: string, c: string, t: string, k: nat)
    requires k <= |s| + |c| + |t| && |c| == 1
    ensures Depth(s + c + t, k) ==
            if k <= |s| then Depth(s, k) else Depth(s, |s|) + Depth(c, 1) + Depth(t, k - |s| - 1)
  {
    assert s + c + t == s + (c + t);
    if k <= |s| {
      DepthPrefix(s, c + t, k);
    } else {
      DepthAppend(s, c + t, k - |s|);
      DepthAppend(c, t, k - |s| - 1);
    }
  }

  /** A well-formed name with a well-formed subscript. */
  lemma WellFormedBracket(s: string, t: string)
    requires WellFormed(s) && WellFormed(t)
    ensures WellFormed(s + "[" + t + "]")
  {
    var u := s + "[" + t;
    var r := u + "]";
    assert Depth("[", 1) == 1 && Depth("]", 1) == -1;
    forall k | 0 <= k <= |r|
      ensures Depth(r, k) >= 0 && (k == |r| ==> Depth(r, k) == 0)
    {
      JoinDepth(s, "[", t, if k <= |u| then k else |u|);
      if k <= |u| { DepthPrefix(u, "]", k); } else { DepthAppend(u, "]", 1); }
    }
    forall k | 0 <= k < |r| && r[k] == ']'
      ensures Stops(r, k + 1)
    {
      if k < |s| {
        assert s[k] == ']' && Stops(s, k + 1);
      } else if k < |u| {
        assert t[k - |s| - 1] == ']' && Stops(t, k - |s|);
      }
    }
  }

  lemma {:induction false} PlainDepth(n: string, k: nat)
    requires Plain(n) && k <= |n|
    ensures Depth(n, k) == 0
  {
    if k > 0 { PlainDepth(n, k - 1); }
  }

  lemma {:induction false} UnparseWellFormed(t: NameTree)
    requires Normal(t)
    ensures WellFormed(Unparse(t))
  {
    match t
    case NameSymbol(n) => forall k | 0 <= k <= |n| ensures Depth(n, k) == 0 { PlainDepth(n, k); }
    case NameDot(l, r) => UnparseWellFormed(l); UnparseWellFormed(r); WellFormedJoin(Unparse(l), ".", Unparse(r));
    case NameBracket(l, r) => UnparseWellFormed(l); UnparseWellFormed(r); WellFormedBracket(Unparse(l), Unparse(r));
    case NameThis =>
  }

  /** Parsing and printing gives the name back exactly if it is well formed. */
  lemma UnparseParse(s: string)
    ensures Unparse(ParseName(s)) == s <==> WellFormed(s)
  {
    ParseFromNormal(s, 0);
    UnparseWellFormed(ParseName(s));
    if WellFormed(s) {
      ParseFromReads(s, 0);
      var (t, e) := ParseFrom(s, 0);
      assert e == |s| by { TopLevel(s, e); }
      assert s[0..e] == s;
    }
  }

  /** No closing bracket at depth zero. */
  lemma TopLevel(s: string, e: nat)
    requires WellFormed(s) && e <= |s| && Depth(s, e) == 0
    ensures e < |s| ==> s[e] != ']'
  {
    if e < |s| { assert Depth(s, e + 1) >= 0; }
  }

  // ----- parsing a printed tree -----

  lemma SymbolEndIs(s: string, pos: nat, e: nat)
    requires pos <= e <= |s| && Stops(s, e) && forall k :: pos <= k < e ==> !Special(s[k])
    ensures SymbolEnd(s, pos) == e
  {
  }

  /** u is found in s at pos. */
  predicate Occurs(s: string, pos: nat, u: string)
  {
    pos + |u| <= |s| && s[pos..pos + |u|] == u
  }

  lemma OccursFirst(s: string, pos: nat, a: string, b: string)
    requires Occurs(s, pos, a + b)
    ensures Occurs(s, pos, a) && Occurs(s, pos + |a|, b)
  {
    var n, m := |a|, |a| + |b|;
    var w := s[pos..pos + m];
    assert w[..n] == s[pos..pos + n] && w[n..] == s[pos + n..pos + m];
    assert (a + b)[..n] == a && (a + b)[n..] == b;
  }

  lemma OccursChar(s: string, pos: nat, c: string)
    requires Occurs(s, pos, c) && |c| == 1
    ensures pos < |s| && s[pos] == c[0]
  {
    assert s[pos..pos + 1][0] == s[pos];
  }

  lemma OccursPlain(s: string, pos: nat, n: string)
    requires Occurs(s, pos, n) && Plain(n)
    ensures forall k :: pos <= k < pos + |n| ==> !Special(s[k])
    ensures s[pos..pos + |n|] == n
  {
    forall k | pos <= k < pos + |n|
      ensures !Special(s[k])
    {
      assert s[k] == s[pos..pos + |n|][k - pos];
    }
  }

  /** Where the parts of a printed tree are. */
  lemma OccursParts(s: string, pos: nat, t: NameTree)
    requires Occurs(s, pos, Unparse(t)) && (t.NameDot? || t.NameBracket?)
    ensures var m := pos + |Unparse(t.lhs)|;
            && Occurs(s, pos, Unparse(t.lhs)) && m < |s| && s[m] == (if t.NameDot? then '.' else '[')
            && Occurs(s, m + 1, Unparse(t.rhs))
            && pos + |Unparse(t)| == m + 1 + |Unparse(t.rhs)| + (if t.NameDot? then 0 else 1)
            && (t.NameBracket? ==> m + 1 + |Unparse(t.rhs)| < |s| && s[m + 1 + |Unparse(t.rhs)|] == ']')
  {
    hide Unparse, Occurs;
    if t.NameDot? {
      UnparseDot(t);
      OccursDot(s, pos, Unparse(t.lhs), Unparse(t.rhs));
    } else {
      UnparseBracket(t);
      OccursBracket(s, pos, Unparse(t.lhs), Unparse(t.rhs));
    }
  }

  lemma UnparseSymbol(t: NameTree)
    requires t.NameSymbol?
    ensures Unparse(t) == t.name
  {
  }

  lemma UnparseDot(t: NameTree)
    requires t.NameDot?
    ensures Unparse(t) == Unparse(t.lhs) + "." + Unparse(t.rhs)
  {
  }

  lemma UnparseBracket(t: NameTree)
    requires t.NameBracket?
    ensures Unparse(t) == Unparse(t.lhs) + "[" + Unparse(t.rhs) + "]"
  {
  }

  lemma OccursDot(s: string, pos: nat, l: string, r: string)
    requires Occurs(s, pos, l + "." + r)
    ensures var m := pos + |l|;
            && Occurs(s, pos, l) && m < |s| && s[m] == '.' && Occurs(s, m + 1, r)
            && pos + |l + "." + r| == m + 1 + |r|
  {
    hide Occurs;
    OccursFirst(s, pos, l + ".", r);
    OccursFirst(s, pos, l, ".");
    OccursChar(s, pos + |l|, ".");
  }

  lemma OccursBracket(s: string, pos: nat, l: string, r: string)
    requires Occurs(s, pos, l + "[" + r + "]")
    ensures var m := pos + |l|;
            && Occurs(s, pos, l) && m < |s| && s[m] == '[' && Occurs(s, m + 1, r)
            && pos + |l + "[" + r + "]"| == m + 2 + |r| && m + 1 + |r| < |s| && s[m + 1 + |r|] == ']'
  {
    hide Occurs;
    OccursFirst(s, pos, l + "[" + r, "]");
    OccursChar(s, pos + |l + "[" + r|, "]");
    OccursFirst(s, pos, l + "[", r);
    OccursFirst(s, pos, l, "[");
    OccursChar(s, pos + |l|, "[");
  }

  /** The parser gets through a printed spine. */
  lemma {:induction false} ParseSpine(s: string, pos: nat, t: NameTree)
    requires Spine(t) && Occurs(s, pos, Unparse(t)) && pos + |Unparse(t)| <= |s| && Stops(s, pos + |Unparse(t)|)
    ensures pos <= |s| && ParseFrom(s, pos) == ParseRest(s, t, pos + |Unparse(t)|)
    decreases t, 0
  {
    if t.NameSymbol? {
      hide Occurs, ParseRest;
      assert Unparse(t) == t.name;
      OccursPlain(s, pos, t.name);
      SymbolEndIs(s, pos, pos + |t.name|);
    } else {
      hide Occurs, ParseFrom, ParseRest, Unparse;
      OccursParts(s, pos, t);
      var m := pos + |Unparse(t.lhs)|;
      ParseSpine(s, pos, t.lhs);
      ParsePrinted(s, m + 1, t.rhs);
      BracketStep(s, t.lhs, m, t.rhs, m + 1 + |Unparse(t.rhs)| + 1);
    }
  }

  /** The parser reads a printed tree up to the closing bracket or end that follows it. */
  lemma {:induction false} ParsePrinted(s: string, pos: nat, t: NameTree)
    requires Normal(t) && Occurs(s, pos, Unparse(t)) && pos + |Unparse(t)| <= |s|
    requires pos + |Unparse(t)| == |s| || s[pos + |Unparse(t)|] == ']'
    ensures pos <= |s| && ParseFrom(s, pos) == (t, pos + |Unparse(t)|)
    decreases t, 1
  {
    hide Occurs, ParseFrom, ParseRest, Unparse;
    NoStep(s, t, pos + |Unparse(t)|);
    if t.NameDot? {
      OccursParts(s, pos, t);
      var m := pos + |Unparse(t.lhs)|;
      ParseSpine(s, pos, t.lhs);
      ParsePrinted(s, m + 1, t.rhs);
      DotStep(s, t.lhs, m, t.rhs, m + 1 + |Unparse(t.rhs)|);
    } else {
      ParseSpine(s, pos, t);
    }
  }

  /** Printing and parsing gives the tree back exactly if it is normal. */
  lemma ParseUnparse(t: NameTree)
    ensures ParseName(Unparse(t)) == t <==> Normal(t)
  {
    var s := Unparse(t);
    ParseFromNormal(s, 0);
    if Normal(t) {
      assert s[0..0 + |s|] == s;
      ParsePrinted(s, 0, t);
    }
  }

  // ----- substitution -----

  function SubstSubscripts(s: string, sub: map<string, string>): string
  {
    if Untouched(s) then s else Unparse(Subst(ParseName(s), sub, true))
  }

  lemma {:induction false} SubstNothing(t: NameTree, root: bool)
    requires Normal(t)
    ensures Subst(t, map[], root) == t
  {
    match t
    case NameDot(l, r) => SubstNothing(l, root); SubstNothing(r, false);
    case NameBracket(l, r) => SubstNothing(l, root); SubstNothing(r, true);
    case _ =>
  }

  /** The empty substitution is the identity exactly on well-formed names and the names left alone. */
  lemma SubstIdentity(s: string)
    ensures SubstSubscripts(s, map[]) == s <==> Untouched(s) || WellFormed(s)
  {
    UnparseParse(s);
    ParseFromNormal(s, 0);
    SubstNothing(ParseName(s), true);
  }

  // ----- substitution as a scan over the name -----

  /** What stands in place of a run of ordinary characters. */
  function Replacement(n: string, sub: map<string, string>, head: bool): string
  {
    if head && n in sub then sub[n] else n
  }

  /** Whether a head and the dot after it are left out. */
  predicate Dropped(n: string, sub: map<string, string>, head: bool)
  {
    head && n in sub && sub[n] == "this"
  }

  /** One pass over the name: of the runs of ordinary characters between dots and brackets, the first one of
      the name and of every subscript is replaced, and "this" with a dot behind it goes away with the dot.
      All other characters stay. */
  function Scan(s: string, sub: map<string, string>, head: bool): string
  {
    var e := SymbolEnd(s, 0);
    var n := s[..e];
    if e == |s| then Replacement(n, sub, head)
    else if Dropped(n, sub, head) && s[e] == '.' then Scan(s[e + 1..], sub, false)
    else Replacement(n, sub, head) + [s[e]] + Scan(s[e + 1..], sub, s[e] == '[')
  }

  /** The scan from a special character or the end on. */
  function Tail(rest: string, sub: map<string, string>): string
  {
    if rest == "" then "" else [rest[0]] + Scan(rest[1..], sub, rest[0] == '[')
  }

  lemma ScanEnd(n: string, sub: map<string, string>, head: bool)
    requires SymbolEnd(n, 0) == |n|
    ensures Scan(n, sub, head) == Replacement(n, sub, head)
  {
    hide SymbolEnd;
    assert n[..|n|] == n;
  }

  lemma ScanAt(s: string, e: nat, sub: map<string, string>, head: bool)
    requires e < |s| && SymbolEnd(s, 0) == e
    ensures Scan(s, sub, head) ==
            if Dropped(s[..e], sub, head) && s[e] == '.' then Scan(s[e + 1..], sub, false)
            else Replacement(s[..e], sub, head) + [s[e]] + Scan(s[e + 1..], sub, s[e] == '[')
  {
    hide SymbolEnd, Dropped, Replacement;
  }

  lemma ScanToken(n: string, rest: string, sub: map<string, string>, head: bool)
    requires Plain(n) && Stops(rest, 0)
    ensures Scan(n + rest, sub, head) ==
            if Dropped(n, sub, head) && rest != "" && rest[0] == '.' then Scan(rest[1..], sub, false)
            else Replacement(n, sub, head) + Tail(rest, sub)
  {
    hide Scan, Dropped, Replacement;
    var s := n + rest;
    SymbolEndIs(s, 0, |n|);
    if rest == "" {
      assert s == n;
      ScanEnd(n, sub, head);
    } else {
      ScanAt(s, |n|, sub, head);
      assert s[..|n|] == n && s[|n| + 1..] == rest[1..] && s[|n|] == rest[0];
    }
  }

  lemma {:induction false} ScanSpine(t: NameTree, rest: string, sub: map<string, string>, head: bool)
    requires Spine(t) && Stops(rest, 0)
    requires Subst(t, sub, head).NameThis? ==> rest == "" || rest[0] != '.'
    ensures Scan(Unparse(t) + rest, sub, head) == Unparse(Subst(t, sub, head)) + Tail(rest, sub)
    decreases t, 1
  {
    hide Scan, Tail;
    if t.NameSymbol? {
      ScanToken(t.name, rest, sub, head);
    } else {
      ScanBracket(t, rest, sub, head);
    }
  }

  lemma BracketText(l: string, r: string, rest: string)
    ensures (l + "[" + r + "]") + rest == l + (['['] + (r + ([']'] + rest)))
  {
  }

  lemma {:induction false} ScanBracket(t: NameTree, rest: string, sub: map<string, string>, head: bool)
    requires Spine(t) && Stops(rest, 0) && t.NameBracket?
    ensures Scan(Unparse(t) + rest, sub, head) == Unparse(Subst(t, sub, head)) + Tail(rest, sub)
    decreases t, 0
  {
    hide Scan, Tail, Unparse;
    var after := Subst(t, sub, head);
    UnparseBracket(t);
    UnparseBracket(after);
    BracketText(Unparse(t.lhs), Unparse(t.rhs), rest);
    BracketText(Unparse(after.lhs), Unparse(after.rhs), Tail(rest, sub));
    ScanSpine(t.lhs, ['['] + (Unparse(t.rhs) + ([']'] + rest)), sub, head);
    TailStep('[', Unparse(t.rhs) + ([']'] + rest), sub);
    ScanNormal(t.rhs, [']'] + rest, sub, true);
    TailStep(']', rest, sub);
    AfterBracket(rest, sub);
  }

  lemma AfterBracket(rest: string, sub: map<string, string>)
    requires Stops(rest, 0)
    ensures Scan(rest, sub, false) == Tail(rest, sub)
  {
    hide Scan, Tail;
    ScanToken("", rest, sub, false);
    assert "" + rest == rest && "" + Tail(rest, sub) == Tail(rest, sub);
  }

  lemma TailStep(c: char, rest: string, sub: map<string, string>)
    ensures Tail([c] + rest, sub) == [c] + Scan(rest, sub, c == '[')
  {
    assert ([c] + rest)[1..] == rest;
  }

  lemma {:induction false} ScanNormal(t: NameTree, rest: string, sub: map<string, string>, head: bool)
    requires Normal(t) && (rest == "" || rest[0] == ']')
    ensures Scan(Unparse(t) + rest, sub, head) == Unparse(Subst(t, sub, head)) + Tail(rest, sub)
    decreases t, 2
  {
    hide Scan, Tail, Unparse;
    if t.NameDot? {
      var after := Unparse(t.rhs) + rest;
      UnparseDot(t);
      var dotted := "." + after;
      assert Unparse(t) + rest == Unparse(t.lhs) + dotted;
      ScanNormal(t.rhs, rest, sub, false);
      if Subst(t.lhs, sub, head).NameThis? {
        UnparseSymbol(t.lhs);
        ScanToken(t.lhs.name, dotted, sub, head);
        assert dotted[1..] == after;
      } else {
        UnparseDot(Subst(t, sub, head));
        ScanSpine(t.lhs, dotted, sub, head);
        TailStep('.', after, sub);
      }
    } else {
      ScanSpine(t, rest, sub, head);
    }
  }

  /** Substituting in a name is the scan over the name as it is read. */
  lemma SubstScans(s: string, sub: map<string, string>)
    requires !Untouched(s)
    ensures SubstSubscripts(s, sub) == Scan(Unparse(ParseName(s)), sub, true)
    ensures WellFormed(s) ==> SubstSubscripts(s, sub) == Scan(s, sub, true)
  {
    var t := ParseName(s);
    ParseFromNormal(s, 0);
    ScanNormal(t, "", sub, true);
    assert Unparse(t) + "" == Unparse(t);
    assert Tail("", sub) == "";
    UnparseParse(s);
  }

  /** Substitutions of symbols for symbols. */
  predicate Symbols(sub: map<string, string>)
  {
    forall n :: n in sub ==> Plain(sub[n]) && sub[n] != "this"
  }

  /** First f, then g. */
  function Then(f: map<string, string>, g: map<string, string>): map<string, string>
  {
    map n | n in f.Keys + g.Keys :: if n in f then (if f[n] in g then g[f[n]] else f[n]) else g[n]
  }

  lemma {:induction false} SubstKeepsNormal(t: NameTree, sub: map<string, string>, root: bool)
    requires Normal(t) && Symbols(sub)
    ensures Normal(Subst(t, sub, root)) && (Spine(t) ==> Spine(Subst(t, sub, root)))
  {
    match t
    case NameDot(l, r) => SubstKeepsNormal(l, sub, root); SubstKeepsNormal(r, sub, false);
    case NameBracket(l, r) => SubstKeepsNormal(l, sub, root); SubstKeepsNormal(r, sub, true);
    case _ =>
  }

  lemma {:induction false} SubstThen(t: NameTree, f: map<string, string>, g: map<string, string>, root: bool)
    requires Normal(t) && Symbols(f) && Symbols(g)
    ensures Subst(Subst(t, f, root), g, root) == Subst(t, Then(f, g), root)
  {
    match t
    case NameDot(l, r) =>
      SubstThen(l, f, g, root); SubstThen(r, f, g, false);
      SubstKeepsNormal(l, f, root);
      SubstKeepsNormal(Subst(l, f, root), g, root);
    case NameBracket(l, r) => SubstThen(l, f, g, root); SubstThen(r, f, g, true);
    case _ =>
  }

  /** Substituting twice in a name is substituting once. */
  lemma SubstTwice(s: string, f: map<string, string>, g: map<string, string>)
    requires Symbols(f) && Symbols(g)
    requires !Untouched(s) && !Untouched(SubstSubscripts(s, f))
    ensures SubstSubscripts(SubstSubscripts(s, f), g) == SubstSubscripts(s, Then(f, g))
  {
    var t := ParseName(s);
    ParseFromNormal(s, 0);
    SubstKeepsNormal(t, f, true);
    ParseUnparse(Subst(t, f, true));
    SubstThen(t, f, g, true);
  }

  predicate Untouched(s: string)
  {
    s == "this" || (s != "" && s[0] == '"')
  }
}
