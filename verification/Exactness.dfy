/**
 What the updates of assumptions and assignments mean for every formula and every target, and so exactly
 when they mean what the action means.
 */
module Exactness {
  import opened Names
  import opened Logic
  import opened ClauseOps
  import opened Updates
  import opened Hiding
  import opened Substitution
  import opened Actions
  import opened Atoms
  import opened Compiler

  // ----- assume -----

  /** The environment with the leading variables of f as in c. */
  ghost function Choosing(f: Expr, env: Env, c: Env): (r: Env)
    ensures forall x :: ValueOf(r, x) == if x in Leading(f) then ValueOf(c, x) else ValueOf(env, x)
  {
    env + map x | x in Leading(f) :: ValueOf(c, x)
  }

  /** The choice c makes the matrix true whatever the other variables are. */
  ghost predicate ChosenOnce(f: Expr, o: State, s: State, c: Env)
  {
    forall env: Env :: Eval(Matrix(f), Now(o, s), Choosing(f, env, c)) != 0
  }

  /** One choice of the leading variables serves all values of the others. */
  ghost predicate Uniform(f: Expr, o: State, s: State)
  {
    exists c: Env :: ChosenOnce(f, o, s, c)
  }

  ghost function SkolemEnv(f: Expr, w: Val): (c: Env)
    ensures forall x :: x in Leading(f) ==> ValueOf(c, x) == w(Sym(Skolem, Id("__sk__" + x, 0)))([])
  {
    map x | x in Leading(f) :: w(Sym(Skolem, Id("__sk__" + x, 0)))([])
  }

  lemma SkolemEnvIs(f: Expr, w: Val, env: Env, x: string)
    ensures ValueOf(SubstEnv(SkolemSub(Leading(f)), w, env), x) == ValueOf(Choosing(f, env, SkolemEnv(f, w)), x)
  {
    if x in Leading(f) {
      assert SkolemSub(Leading(f))[x] == App(Sym(Skolem, Id("__sk__" + x, 0)), []);
      ConstValue(Sym(Skolem, Id("__sk__" + x, 0)), w, env);
    }
  }

  /** The skolemized formula is valid when the constants are a choice that serves all. */
  lemma SkolemChoice(f: Expr, o: State, s: State, t: State, w: Val)
    requires StateExpr(f) && SameProgram(Mk(o, s, t), w)
    ensures Valid(SkolemizeFormula(f), w) <==> ChosenOnce(f, o, s, SkolemEnv(f, w))
  {
    hide Eval, SubstEnv, SkolemizeFormula;
    var c := SkolemEnv(f, w);
    MatrixFacts(f);
    forall env: Env
      ensures Eval(SkolemizeFormula(f), w, env) == Eval(Matrix(f), Now(o, s), Choosing(f, env, c))
    {
      SkolemizeEval(f, w, env);
      StateEval(Matrix(f), o, s, t, w, SubstEnv(SkolemSub(Leading(f)), w, env));
      forall x | x in FreeVars(Matrix(f))
        ensures ValueOf(SubstEnv(SkolemSub(Leading(f)), w, env), x) == ValueOf(Choosing(f, env, c), x)
      {
        SkolemEnvIs(f, w, env, x);
      }
      EvalSameEnv(Matrix(f), Now(o, s), SubstEnv(SkolemSub(Leading(f)), w, env), Choosing(f, env, c));
    }
  }

  lemma ChoiceSame(f: Expr, o: State, s: State, c: Env, d: Env)
    requires ChosenOnce(f, o, s, c) && forall x :: x in Leading(f) ==> ValueOf(c, x) == ValueOf(d, x)
    ensures ChosenOnce(f, o, s, d)
  {
    forall env: Env
      ensures Eval(Matrix(f), Now(o, s), Choosing(f, env, d)) != 0
    {
      EvalSameEnv(Matrix(f), Now(o, s), Choosing(f, env, c), Choosing(f, env, d));
    }
  }

  /** An assumption's update holds in place exactly where one choice of the leading variables serves all
      values of the other variables. */
  lemma AssumeExact(f: Expr, o: State, s: State, t: State)
    requires StateExpr(f)
    ensures Rel(AssumeUpdate(f), o, s, t) <==> Same(s, t) && Uniform(f, o, s)
  {
    hide Valid, ChosenOnce, SkolemizeFormula, SkolemEnv;
    if w: Val :| SameProgram(Mk(o, s, t), w) && Valid(SkolemizeFormula(f), w) {
      SkolemChoice(f, o, s, t, w);
    }
    if c: Env :| ChosenOnce(f, o, s, c) {
      var w := ChosenVal(f, Mk(o, s, t), c);
      ChoiceSame(f, o, s, c, SkolemEnv(f, w));
      SkolemChoice(f, o, s, t, w);
      assert SameProgram(Mk(o, s, t), w) && Holds(Fact(SkolemizeFormula(f)), w);
    }
  }

  /** A valuation whose skolem constants are the choice c. */
  lemma ChosenVal(f: Expr, v: Val, c: Env) returns (w: Val)
    ensures SameProgram(v, w) && forall x :: x in Leading(f) ==> ValueOf(c, x) == ValueOf(SkolemEnv(f, w), x)
  {
    w := SkolemVal(v, Leading(f), c);
    forall x | x in Leading(f)
      ensures w(Sym(Skolem, Id("__sk__" + x, 0)))([]) == ValueOf(c, x)
    {
      var y := Sym(Skolem, Id("__sk__" + x, 0));
      assert Bare(y) == x && Skolemed(y, Leading(f));
      assert w(y) == ConstTable(ValueOf(c, x));
    }
  }

  /** Where one choice serves all, the formula is true. */
  lemma UniformTrue(f: Expr, o: State, s: State)
    requires Uniform(f, o, s)
    ensures True(f, o, s)
  {
    hide Eval;
    var c: Env :| ChosenOnce(f, o, s, c);
    forall env: Env
      ensures Eval(f, Now(o, s), env) != 0
    {
      LeadingBound(f);
      assert SameEnv(env, Choosing(f, env, c), FreeVars(f));
      assert Chosen(f, Now(o, s), env, Choosing(f, env, c));
      MatrixMeaning(f, Now(o, s), env);
    }
  }

  lemma {:induction false} LeadingBound(f: Expr)
    ensures Leading(f) !! FreeVars(f)
  {
    if f.Quant? && !f.all { LeadingBound(f.body); }
  }

  /** The update of an assumption is right in a state exactly if the truth of the formula there does not need
      different choices of the leading variables for different values of the others. */
  lemma AssumeRight(f: Expr, o: State, s: State)
    requires StateExpr(f)
    ensures (forall t: State :: Rel(AssumeUpdate(f), o, s, t) <==> Exec(Assume(f), o, s, t)) <==>
            (True(f, o, s) ==> Uniform(f, o, s))
  {
    hide Rel, AssumeUpdate, Uniform, True;
    forall t: State
      ensures Rel(AssumeUpdate(f), o, s, t) <==> Same(s, t) && Uniform(f, o, s)
      ensures Exec(Assume(f), o, s, t) <==> Same(s, t) && True(f, o, s)
    {
      AssumeExact(f, o, s, t);
    }
    if Uniform(f, o, s) { UniformTrue(f, o, s); }
    assert Same(s, s);
  }

  // ----- assignment -----

  predicate StateAssign(target: Target, rhs: Expr)
  {
    StateExpr(rhs) && forall e :: e in target.args ==> StateExpr(e)
  }

  /** The cell that the placeholders name. */
  ghost function CellBy(p: string, target: Target, env: Env): (a: seq<int>)
    ensures |a| == |target.args| && Holding(p, a, env)
  {
    HeldBy(p, |target.args|, env)
  }

  ghost function Cell(target: Target, env: Env): (a: seq<int>)
    ensures |a| == |target.args| && Holding("V", a, env)
  {
    CellBy("V", target, env)
  }

  /** The index expressions address the cell of the placeholders. */
  ghost predicate HitBy(p: string, args: seq<Expr>, v: Val, env: Env)
  {
    forall k :: 0 <= k < |args| && !args[k].Var? ==> ValueOf(env, p + Decimal(k)) == Eval(args[k], v, env)
  }

  ghost predicate Hit(args: seq<Expr>, v: Val, env: Env)
  {
    HitBy("V", args, v, env)
  }

  /** What the clause asks of the cell of the placeholders. */
  ghost function Demand(target: Target, rhs: Expr, o: State, s: State, env: Env): int
  {
    if Hit(target.args, Now(o, s), env) then Eval(Placed(target, rhs), Now(o, s),
                                                  env) else s(target.x)(Cell(target, env))
  }

  lemma {:induction false} IndexCondsExact(args: seq<Expr>, v: Val, env: Env)
    ensures Eval(IndexConds("V", args), v, env) != 0 <==> Hit(args, v, env)
  {
    if args != [] {
      var n := |args| - 1;
      IndexCondsExact(args[..n], v, env);
      assert Hit(args, v, env) <==>
             Hit(args[..n], v, env) && (!args[n].Var? ==> ValueOf(env, "V" + Decimal(n)) == Eval(args[n], v, env));
      if !args[n].Var? {
        assert Eval(IndexEq("V", args, n), v, env) == Truth(ValueOf(env, "V" + Decimal(n)) == Eval(args[n], v, env));
      }
    }
  }

  lemma AssignExprExact(target: Target, rhs: Expr, w: Val, env: Env)
    ensures Eval(AssignExpr(target, rhs), w, env) ==
            Truth(w(NewSym(target.x))(Cell(target, env)) ==
                  if Hit(target.args, w, env) then Eval(Placed(target, rhs), w, env)
                  else w(BaseSym(target.x))(Cell(target, env)))
  {
    hide Eval, SubstExpr, IndexConds, AssignExpr;
    AssignExprEval(target, rhs, w, env, Cell(target, env));
    IndexCondsExact(target.args, w, env);
  }

  /** The clause reads the state before the assignment only, but for the target itself. */
  lemma DemandNow(target: Target, rhs: Expr, o: State, s: State, t: State, w: Val, env: Env)
    requires StateAssign(target, rhs) && SameProgram(Mk(o, s, t), w)
    ensures Eval(AssignExpr(target, rhs), w, env) ==
            Truth(t(target.x)(Cell(target, env)) == Demand(target, rhs, o, s, env))
  {
    hide Eval, AssignExpr, SubstExpr;
    AssignExprExact(target, rhs, w, env);
    IndexSubSyms("V", target.args);
    SubstSyms(rhs, IndexSub("V", target.args));
    StateEval(Placed(target, rhs), o, s, t, w, env);
    forall k | 0 <= k < |target.args|
      ensures Eval(target.args[k], w, env) == Eval(target.args[k], Now(o, s), env)
    {
      StateEval(target.args[k], o, s, t, w, env);
    }
    assert w(NewSym(target.x)) == Mk(o, s, t)(NewSym(target.x)) &&
           w(BaseSym(target.x)) == Mk(o, s, t)(BaseSym(target.x));
  }

  ghost predicate Meets(target: Target, rhs: Expr, o: State, s: State, t: State)
  {
    forall env: Env :: t(target.x)(Cell(target, env)) == Demand(target, rhs, o, s, env)
  }

  /** An assignment's update leaves other symbols alone and meets every demand, for every target. */
  lemma AssignExact(target: Target, rhs: Expr, o: State, s: State, t: State)
    requires StateAssign(target, rhs)
    ensures Rel(AssignUpdate(target, rhs), o, s, t) <==> Framed(target.x, s, t) && Meets(target, rhs, o, s, t)
  {
    hide Eval, AssignExpr, Demand, Cell;
    forall w: Val | SameProgram(Mk(o, s, t), w)
      ensures Valid(AssignExpr(target, rhs), w) <==> Meets(target, rhs, o, s, t)
    {
      forall env: Env
        ensures Eval(AssignExpr(target, rhs), w, env) ==
                Truth(t(target.x)(Cell(target, env)) == Demand(target, rhs, o, s, env))
      {
        DemandNow(target, rhs, o, s, t, w, env);
      }
    }
    OneFact(target.x, AssignExpr(target, rhs), o, s, t, Framed(target.x, s, t) && Meets(target, rhs, o, s, t));
  }

  /** One cell is asked for two values. */
  ghost predicate Blocked(target: Target, rhs: Expr, o: State, s: State)
  {
    exists env: Env, env': Env :: Cell(target, env) == Cell(target, env')
      && Demand(target, rhs, o, s, env) != Demand(target, rhs, o, s, env')
  }

  lemma CellOf(target: Target, a: seq<int>)
    requires |a| == |target.args|
    ensures Cell(target, HoleEnv("V", a)) == a
  {
  }

  lemma StateWith(x: Id, s: State, table: Table) returns (t: State)
    ensures Framed(x, s, t) && t(x) == table
  {
    t := (i: Id) => if i == x then table else s(i);
  }

  ghost function Demanded(target: Target, rhs: Expr, o: State, s: State): Table
  {
    (a: seq<int>) => Demand(target, rhs, o, s, HoleEnv("V", a))
  }

  /** An assignment can be taken exactly if no cell is asked for two values. */
  lemma AssignTaken(target: Target, rhs: Expr, o: State, s: State)
    requires StateAssign(target, rhs)
    ensures (exists t: State :: Rel(AssignUpdate(target, rhs), o, s, t)) <==> !Blocked(target, rhs, o, s)
  {
    hide Rel, AssignUpdate, Demand, Cell;
    forall t: State
      ensures Rel(AssignUpdate(target, rhs), o, s, t) <==> Framed(target.x, s, t) && Meets(target, rhs, o, s, t)
    {
      AssignExact(target, rhs, o, s, t);
    }
    if !Blocked(target, rhs, o, s) {
      var t := StateWith(target.x, s, Demanded(target, rhs, o, s));
      forall env: Env
        ensures t(target.x)(Cell(target, env)) == Demand(target, rhs, o, s, env)
      {
        var a := Cell(target, env);
        CellOf(target, a);
        assert t(target.x)(a) == Demand(target, rhs, o, s, HoleEnv("V", a));
      }
    }
  }

  // ----- what is meant -----

  /** Two values of the variables address one cell and give it different values. */
  ghost predicate HitTwice(target: Target, rhs: Expr, o: State, s: State)
  {
    exists env: Env, env': Env :: Cell(target, env) == Cell(target, env')
      && Hit(target.args, Now(o, s), env) && Hit(target.args, Now(o, s), env')
      && Eval(Placed(target, rhs), Now(o, s), env) != Eval(Placed(target, rhs), Now(o, s), env')
  }

  /** A cell is addressed, and given another value, under some values of the variables and not under others. */
  ghost predicate HitAndMissed(target: Target, rhs: Expr, o: State, s: State)
  {
    exists env: Env, env': Env :: Cell(target, env) == Cell(target, env')
      && Hit(target.args, Now(o, s), env) && !Hit(target.args, Now(o, s), env')
      && Eval(Placed(target, rhs), Now(o, s), env) != s(target.x)(Cell(target, env))
  }

  lemma BlockedIs(target: Target, rhs: Expr, o: State, s: State)
    ensures Blocked(target, rhs, o, s) <==> HitTwice(target, rhs, o, s) || HitAndMissed(target, rhs, o, s)
  {
    hide Cell, CellBy, Hit, HitBy, Placed, Eval;
    if Blocked(target, rhs, o, s) {
      var env: Env, env': Env :|
        Cell(target, env) == Cell(target, env') && Demand(target, rhs, o, s, env) != Demand(target, rhs, o, s, env');
      if !Hit(target.args, Now(o, s), env) { assert Hit(target.args, Now(o, s), env'); }
    }
  }

  /** The right-hand side for the cell of the placeholders: index variables stand for its indices. */
  ghost function Given(target: Target, rhs: Expr, o: State, s: State, env: Env): int
  {
    Eval(rhs, Now(o, s), SubstEnv(IndexSub("V", target.args), Now(o, s), env))
  }

  /** Cells addressed under some values of the variables get the value of the right-hand side there; the others
      keep theirs. */
  ghost predicate Meant(target: Target, rhs: Expr, o: State, s: State, t: State)
  {
    && Framed(target.x, s, t)
    && (forall env: Env :: Hit(target.args, Now(o, s), env) ==>
          t(target.x)(Cell(target, env)) == Given(target, rhs, o, s, env))
    && (forall env: Env :: (forall env': Env :: Cell(target, env') == Cell(target, env) ==>
                              !Hit(target.args, Now(o, s), env'))
          ==> t(target.x)(Cell(target, env)) == s(target.x)(Cell(target, env)))
  }

  lemma GivenIs(target: Target, rhs: Expr, o: State, s: State, env: Env)
    requires NoCapture(rhs, IndexSub("V", target.args))
    ensures Eval(Placed(target, rhs), Now(o, s), env) == Given(target, rhs, o, s, env)
  {
    SubstMeaning(rhs, IndexSub("V", target.args), Now(o, s), env);
  }

  /** Meeting every demand is what is meant, unless a cell is both addressed and missed. */
  lemma MeetsMeant(target: Target, rhs: Expr, o: State, s: State, t: State)
    requires NoCapture(rhs, IndexSub("V", target.args)) && Framed(target.x, s, t)
    ensures Meets(target, rhs, o, s, t) ==> Meant(target, rhs, o, s, t)
    ensures Meant(target, rhs, o, s, t) && !HitAndMissed(target, rhs, o, s) ==> Meets(target, rhs, o, s, t)
  {
    hide Hit, HitBy, Cell, CellBy, Placed, Eval, NoCapture, Given;
    forall env: Env
      ensures Eval(Placed(target, rhs), Now(o, s), env) == Given(target, rhs, o, s, env)
    {
      GivenIs(target, rhs, o, s, env);
    }
    if Meant(target, rhs, o, s, t) && !HitAndMissed(target, rhs, o, s) {
      forall env: Env
        ensures t(target.x)(Cell(target, env)) == Demand(target, rhs, o, s, env)
      {
        if env': Env :| Cell(target, env') == Cell(target, env) && Hit(target.args, Now(o, s), env') {
          assert t(target.x)(Cell(target, env)) == Given(target, rhs, o, s, env');
        }
      }
    }
  }

  ghost predicate Reached(target: Target, o: State, s: State, a: seq<int>, env: Env)
  {
    Cell(target, env) == a && Hit(target.args, Now(o, s), env)
  }

  ghost function MeantTable(target: Target, rhs: Expr, o: State, s: State): Table
  {
    (a: seq<int>) => MeantAt(target, rhs, o, s, a)
  }

  ghost function MeantAt(target: Target, rhs: Expr, o: State, s: State, a: seq<int>): int
  {
    if env: Env :| Reached(target, o, s, a, env) then Given(target, rhs, o, s, env) else s(target.x)(a)
  }

  /** Without two values for one cell, there is a state that is meant. */
  lemma MeantExists(target: Target, rhs: Expr, o: State, s: State) returns (t: State)
    requires NoCapture(rhs, IndexSub("V", target.args)) && !HitTwice(target, rhs, o, s)
    ensures Meant(target, rhs, o, s, t)
  {
    hide Hit, HitBy, Cell, CellBy, Placed, Eval, NoCapture, Given;
    t := StateWith(target.x, s, MeantTable(target, rhs, o, s));
    forall env: Env
      ensures Hit(target.args, Now(o, s), env) ==> t(target.x)(Cell(target, env)) == Given(target, rhs, o, s, env)
    {
      var a := Cell(target, env);
      if Hit(target.args, Now(o, s), env) {
        assert Reached(target, o, s, a, env);
        var env': Env :| Reached(target, o, s, a, env') &&
          MeantAt(target, rhs, o, s, a) == Given(target, rhs, o, s, env');
        GivenIs(target, rhs, o, s, env);
        GivenIs(target, rhs, o, s, env');
      }
    }
  }

  /** The update of an assignment is right in a state exactly if no cell is both addressed, for another value,
      and missed there -- unless already two values are meant for one cell. */
  lemma AssignRight(target: Target, rhs: Expr, o: State, s: State)
    requires StateAssign(target, rhs) && NoCapture(rhs, IndexSub("V", target.args))
    ensures (forall t: State :: Rel(AssignUpdate(target, rhs), o, s, t) <==> Meant(target, rhs, o, s, t)) <==>
            HitTwice(target, rhs, o, s) || !HitAndMissed(target, rhs, o, s)
  {
    hide Rel, AssignUpdate, Meets, Meant, HitTwice, HitAndMissed, Blocked, NoCapture;
    AssignTaken(target, rhs, o, s);
    BlockedIs(target, rhs, o, s);
    forall t: State
      ensures Rel(AssignUpdate(target, rhs), o, s, t) ==> Meant(target, rhs, o, s, t)
      ensures Meant(target, rhs, o, s, t) && !HitAndMissed(target, rhs, o, s) ==>
              Rel(AssignUpdate(target, rhs), o, s, t)
      ensures Meant(target, rhs, o, s, t) ==> !HitTwice(target, rhs, o, s)
    {
      AssignExact(target, rhs, o, s, t);
      MeantFramed(target, rhs, o, s, t);
      if Framed(target.x, s, t) { MeetsMeant(target, rhs, o, s, t); }
    }
    if HitAndMissed(target, rhs, o, s) && !HitTwice(target, rhs, o, s) {
      var t := MeantExists(target, rhs, o, s);
    }
  }

  lemma MeantFramed(target: Target, rhs: Expr, o: State, s: State, t: State)
    requires NoCapture(rhs, IndexSub("V", target.args))
    ensures Meant(target, rhs, o, s, t) ==> Framed(target.x, s, t) && !HitTwice(target, rhs, o, s)
  {
    hide Hit, HitBy, Cell, CellBy, Placed, Eval, NoCapture, Given;
    forall env: Env
      ensures Eval(Placed(target, rhs), Now(o, s), env) == Given(target, rhs, o, s, env)
    {
      GivenIs(target, rhs, o, s, env);
    }
  }

  // ----- havoc -----

  ghost predicate Unchanged(x: Id, w: Val, a: seq<int>)
  {
    w(NewSym(x))(a) == w(BaseSym(x))(a)
  }

  /** The havoc clause for one value of its variables: the cell of the placeholders is addressed or unchanged. */
  lemma {:induction false} HavocCondsExact(target: Target, m: nat, w: Val, env: Env)
    requires m <= |target.args|
    ensures Eval(HavocConds(target.x, target.args, m), w, env) != 0 <==>
            HitBy("X", target.args[..m], w, env) || Unchanged(target.x, w, CellBy("X", target, env))
  {
    if m > 0 {
      var x, args, a := target.x, target.args, CellBy("X", target, env);
      var c := HavocConds(x, args, m - 1);
      HavocCondsExact(target, m - 1, w, env);
      HitMore(args, m, w, env);
      if !args[m - 1].Var? {
        var vs := Holes("X", |args|);
        var same := Op(Equals, App(NewSym(x), vs), App(BaseSym(x), vs));
        HavocStep(c, same, IndexEq("X", args, m - 1), w, env);
        HolesApp(NewSym(x), "X", a, w, env);
        HolesApp(BaseSym(x), "X", a, w, env);
        EqualsEval(App(NewSym(x), vs), App(BaseSym(x), vs), w, env);
        EqualsEval(Var("X" + Decimal(m - 1)), args[m - 1], w, env);
        assert Eval(Var("X" + Decimal(m - 1)), w, env) == ValueOf(env, "X" + Decimal(m - 1));
      }
    }
  }

  lemma HavocStep(c: Expr, same: Expr, eq: Expr, w: Val, env: Env)
    ensures Eval(Op(Conj, c, Op(Disj, same, eq)), w, env) != 0 <==>
            Eval(c, w, env) != 0 && (Eval(same, w, env) != 0 || Eval(eq, w, env) != 0)
  {
  }

  lemma HitMore(args: seq<Expr>, m: nat, w: Val, env: Env)
    requires 0 < m <= |args|
    ensures HitBy("X", args[..m], w, env) <==>
            && HitBy("X", args[..m - 1], w, env)
            && (!args[m - 1].Var? ==> ValueOf(env, "X" + Decimal(m - 1)) == Eval(args[m - 1], w, env))
  {
    hide Eval;
  }

  ghost predicate HavocHit(target: Target, o: State, s: State, env: Env)
  {
    HitBy("X", target.args, Now(o, s), env)
  }

  /** A cell may change if every value of the variables addresses it. */
  ghost predicate Freed(target: Target, o: State, s: State, t: State)
  {
    forall env: Env :: HavocHit(target, o, s, env) ||
      t(target.x)(CellBy("X", target, env)) == s(target.x)(CellBy("X", target, env))
  }

  lemma HavocNow(target: Target, o: State, s: State, t: State, w: Val, env: Env)
    requires (forall e :: e in target.args ==> StateExpr(e)) && SameProgram(Mk(o, s, t), w)
    ensures Eval(HavocConds(target.x, target.args, |target.args|), w, env) != 0 <==>
            HavocHit(target, o, s, env) ||
              t(target.x)(CellBy("X", target, env)) == s(target.x)(CellBy("X", target, env))
  {
    hide Eval, HavocConds;
    HavocCondsExact(target, |target.args|, w, env);
    assert target.args[..|target.args|] == target.args;
    forall k | 0 <= k < |target.args|
      ensures Eval(target.args[k], w, env) == Eval(target.args[k], Now(o, s), env)
    {
      StateEval(target.args[k], o, s, t, w, env);
    }
    assert w(NewSym(target.x)) == Mk(o, s, t)(NewSym(target.x)) &&
           w(BaseSym(target.x)) == Mk(o, s, t)(BaseSym(target.x));
  }

  /** For every target, a havoc's update leaves other symbols alone and lets exactly those cells change that every
      value of the variables addresses. */
  lemma HavocExact(target: Target, o: State, s: State, t: State)
    requires forall e :: e in target.args ==> StateExpr(e)
    ensures Rel(HavocUpdate(target), o, s, t) <==> Framed(target.x, s, t) && Freed(target, o, s, t)
  {
    hide Eval, HavocConds, HavocHit, CellBy;
    var e := HavocConds(target.x, target.args, |target.args|);
    forall w: Val | SameProgram(Mk(o, s, t), w)
      ensures Valid(e, w) <==> Freed(target, o, s, t)
    {
      forall env: Env
        ensures Eval(e, w, env) != 0 <==>
                HavocHit(target, o, s, env) ||
                  t(target.x)(CellBy("X", target, env)) == s(target.x)(CellBy("X", target, env))
      {
        HavocNow(target, o, s, t, w, env);
      }
    }
    OneFact(target.x, e, o, s, t, Framed(target.x, s, t) && Freed(target, o, s, t));
  }

  /** Cells that no value of the variables addresses keep their value. */
  ghost predicate HavocMeant(target: Target, o: State, s: State, t: State)
  {
    && Framed(target.x, s, t)
    && forall env: Env ::
         (forall env': Env :: CellBy("X", target, env') == CellBy("X", target, env) ==>
            !HavocHit(target, o, s, env')) ==>
         t(target.x)(CellBy("X", target, env)) == s(target.x)(CellBy("X", target, env))
  }

  ghost predicate HavocTorn(target: Target, o: State, s: State)
  {
    exists env: Env, env': Env :: CellBy("X", target, env) == CellBy("X", target, env')
      && HavocHit(target, o, s, env) && !HavocHit(target, o, s, env')
  }

  ghost function Raised(table: Table, a: seq<int>): Table
  {
    (b: seq<int>) => if b == a then table(b) + 1 else table(b)
  }

  /** The update of a havoc is right in a state exactly if no cell is both addressed and missed there. */
  lemma HavocRight(target: Target, o: State, s: State)
    requires forall e :: e in target.args ==> StateExpr(e)
    ensures (forall t: State :: Rel(HavocUpdate(target), o, s, t) <==> HavocMeant(target, o, s, t)) <==>
            !HavocTorn(target, o, s)
  {
    hide Rel, HavocUpdate, HavocHit, CellBy;
    forall t: State
      ensures Rel(HavocUpdate(target), o, s, t) <==> Framed(target.x, s, t) && Freed(target, o, s, t)
      ensures Freed(target, o, s, t) && Framed(target.x, s, t) ==> HavocMeant(target, o, s, t)
      ensures HavocMeant(target, o, s, t) && !HavocTorn(target, o, s) ==> Freed(target, o, s, t)
    {
      HavocExact(target, o, s, t);
    }
    if HavocTorn(target, o, s) {
      var env: Env, env': Env :| CellBy("X", target, env) == CellBy("X", target, env')
        && HavocHit(target, o, s, env) && !HavocHit(target, o, s, env');
      var a := CellBy("X", target, env);
      var t := StateWith(target.x, s, Raised(s(target.x), a));
      assert t(target.x)(a) == s(target.x)(a) + 1;
      assert HavocMeant(target, o, s, t) && !Freed(target, o, s, t);
    }
  }
}
