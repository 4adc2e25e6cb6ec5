/** Evaluating code that sets no marks, step by step, in an environment. */
module PureRun {
  import opened Wrappers
  import opened Code
  import opened Interp
  import opened Cells
  import opened Lexical

  /** The run from s succeeds with this value and changes nothing, or it meets a
      `fail`. */
  predicate Comes(r: (Outcome, State), s: State, o: Option<Value>) {
    if o.Some? then r == (Ok(o.value), s) else r.0 == Failed(FailStatement)
  }

  function Ev(P: Program, k: nat, e: Code, s: State): (Outcome, State) { Run(P, Plain, k, e, false, s) }

  ghost predicate Gives(P: Program, k: nat, e: Code, env: Store, o: Option<Value>) {
    forall s: State {:trigger Ev(P, k, e, s)} :: s.val == env ==> Comes(Ev(P, k, e, s), s, o)
  }

  ghost predicate CallGives(P: Program, k: nat, f: Name, vs: seq<Value>, o: Option<Value>) {
    forall s: State {:trigger CallProgram(P, Plain, k, f, vs, false, s)} ::
      Comes(CallProgram(P, Plain, k, f, vs, false, s), s, o)
  }

  lemma GivesLit(P: Program, k: nat, v: Value, env: Store)
    ensures Gives(P, k, Lit(v), env, Some(v))
  {
  }

  lemma GivesVar(P: Program, k: nat, x: Name, env: Store)
    requires x in env
    ensures Gives(P, k, Var(x), env, Some(env[x]))
  {
  }

  lemma GivesFail(P: Program, k: nat, t: Type, env: Store)
    ensures Gives(P, k, Node(Fail(t), []), env, None)
  {
    forall s: State | s.val == env ensures Comes(Ev(P, k, Node(Fail(t), []), s), s, None) {
      assert Operands(P, Plain, k, Fail(t), [], 0, false, s) == (Values([]), s);
      NodeUnfolds(P, Plain, k, Fail(t), [], false, s);
    }
  }

  lemma GivesLet(P: Program, k: nat, x: Name, rhs: Code, body: Code, env: Store, v: Value, o: Option<Value>)
    requires Gives(P, k, rhs, env, Some(v)) && Gives(P, k, body, env[x := v], o)
    ensures Gives(P, k, Let(x, rhs, body), env, o)
  {
    forall s: State | s.val == env ensures Comes(Ev(P, k, Let(x, rhs, body), s), s, o) {
      assert Ev(P, k, rhs, s) == (Ok(v), s);
      assert Comes(Ev(P, k, body, s.(val := env[x := v])), s.(val := env[x := v]), o);
    }
  }

  lemma LetFails(P: Program, k: nat, x: Name, rhs: Code, body: Code, env: Store)
    requires Gives(P, k, rhs, env, None)
    ensures Gives(P, k, Let(x, rhs, body), env, None)
  {
    forall s: State | s.val == env ensures Comes(Ev(P, k, Let(x, rhs, body), s), s, None) {
      assert Comes(Ev(P, k, rhs, s), s, None);
    }
  }

  ghost predicate CaseGives(P: Program, k: nat, c: Case, v: Value, env: Store, o: Option<Value>)
    requires Selects(c, v)
  {
    match c
    case Case(_, xs, b) => |xs| == |v.args| && Gives(P, k, b, Bind(env, xs, v.args), o)
    case Default(b) => Gives(P, k, b, env, o)
  }

  /** The first case that selects the value of x is taken. */
  lemma GivesMatch(P: Program, k: nat, x: Name, first: Case, second: Case, env: Store, o: Option<Value>)
    requires x in env
    requires if Selects(first, env[x]) then CaseGives(P, k, first, env[x], env, o)
      else Selects(second, env[x]) && CaseGives(P, k, second, env[x], env, o)
    ensures Gives(P, k, Match(Var(x), [first, second]), env, o)
  {
    forall s: State | s.val == env ensures Comes(Ev(P, k, Match(Var(x), [first, second]), s), s, o) {
      var chosen := if Selects(first, env[x]) then first else second;
      MatchRuns(P, k, x, first, second, s);
      CaseRuns(P, k, chosen, env[x], s, o);
    }
  }

  lemma MatchRuns(P: Program, k: nat, x: Name, first: Case, second: Case, s: State)
    requires x in s.val && (Selects(first, s.val[x]) || Selects(second, s.val[x]))
    ensures Ev(P, k, Match(Var(x), [first, second]), s)
      == RunCase(P, Plain, k, if Selects(first, s.val[x]) then first else second, s.val[x], false, s)
  {
    var cases, v := [first, second], s.val[x];
    assert Ev(P, k, Var(x), s) == (Ok(v), s);
    assert Ev(P, k, Match(Var(x), cases), s) == RunCases(P, Plain, k, cases, v, false, s);
    if !Selects(first, v) {
      assert cases[1..] == [second];
      assert RunCases(P, Plain, k, cases, v, false, s) == RunCases(P, Plain, k, [second], v, false, s);
      assert RunCases(P, Plain, k, [second], v, false, s) == RunCase(P, Plain, k, second, v, false, s);
    }
  }

  lemma CaseRuns(P: Program, k: nat, c: Case, v: Value, s: State, o: Option<Value>)
    requires Selects(c, v) && CaseGives(P, k, c, v, s.val, o)
    ensures Comes(RunCase(P, Plain, k, c, v, false, s), s, o)
  {
    match c
    case Case(_, xs, b) =>
      var inner := s.(val := Bind(s.val, xs, v.args));
      assert Comes(Ev(P, k, b, inner), inner, o);
    case Default(b) => assert Comes(Ev(P, k, b, s), s, o);
  }

  // ----- operators whose operands are all evaluated -----

  predicate AllStrict(op: Op) { op.Construct? || op.Call? }

  lemma {:induction false} OperandsGive(P: Program, k: nat, op: Op, es: seq<Code>, vs: seq<Value>, env: Store, s: State)
    requires |es| == |vs| && s.val == env && !NeedsSymbols(op)
    requires forall i {:trigger es[i]} :: 0 <= i < |es| ==> Gives(P, k, es[i], env, Some(vs[i]))
    ensures Operands(P, Plain, k, op, es, |es|, false, s) == (Values(vs), s)
    decreases |es|
  {
    if es != [] {
      var n := |es| - 1;
      assert Gives(P, k, es[0], env, Some(vs[0]));
      assert Ev(P, k, es[0], s) == (Ok(vs[0]), s);
      forall i {:trigger es[1..][i]} | 0 <= i < n ensures Gives(P, k, es[1..][i], env, Some(vs[1..][i])) {
        assert es[1..][i] == es[i + 1];
      }
      OperandsGive(P, k, op, es[1..], vs[1..], env, s);
      assert vs == [vs[0]] + vs[1..];
    }
  }

  /** The i-th operand fails, those before it do not. */
  lemma {:induction false} OperandsFail(P: Program, k: nat, op: Op, es: seq<Code>, n: nat, vs: seq<Value>, env: Store,
      s: State)
    requires |vs| < n <= |es| && s.val == env && !NeedsSymbols(op) && Gives(P, k, es[|vs|], env, None)
    requires forall i {:trigger es[i]} :: 0 <= i < |vs| ==> Gives(P, k, es[i], env, Some(vs[i]))
    ensures Operands(P, Plain, k, op, es, n, false, s).0 == Stopped(Failed(FailStatement))
    decreases |es|
  {
    var m := n - 1;
    if vs == [] {
      assert Comes(Ev(P, k, es[0], s), s, None);
    } else {
      assert Gives(P, k, es[0], env, Some(vs[0]));
      assert Ev(P, k, es[0], s) == (Ok(vs[0]), s);
      assert es[1..][|vs| - 1] == es[|vs|];
      forall i {:trigger es[1..][i]} | 0 <= i < |vs| - 1 ensures Gives(P, k, es[1..][i], env, Some(vs[1..][i])) {
        assert es[1..][i] == es[i + 1];
      }
      OperandsFail(P, k, op, es[1..], m, vs[1..], env, s);
    }
  }

  lemma GivesConstruct(P: Program, k: nat, c: Name, es: seq<Code>, vs: seq<Value>, env: Store)
    requires |es| == |vs| && forall i {:trigger es[i]} :: 0 <= i < |es| ==> Gives(P, k, es[i], env, Some(vs[i]))
    ensures Gives(P, k, Node(Construct(c), es), env, Some(VCon(c, vs)))
  {
    forall s: State | s.val == env ensures Comes(Ev(P, k, Node(Construct(c), es), s), s, Some(VCon(c, vs))) {
      OperandsGive(P, k, Construct(c), es, vs, env, s);
      NodeUnfolds(P, Plain, k, Construct(c), es, false, s);
    }
  }

  lemma GivesCall(P: Program, k: nat, f: Name, es: seq<Code>, vs: seq<Value>, env: Store, o: Option<Value>)
    requires |es| == |vs| && forall i {:trigger es[i]} :: 0 <= i < |es| ==> Gives(P, k, es[i], env, Some(vs[i]))
    requires k > 0 && CallGives(P, k - 1, f, vs, o)
    ensures Gives(P, k, Node(Call(f), es), env, o)
  {
    var j := k - 1;
    forall s: State | s.val == env ensures Comes(Ev(P, k, Node(Call(f), es), s), s, o) {
      OperandsGive(P, k, Call(f), es, vs, env, s);
      NodeUnfolds(P, Plain, k, Call(f), es, false, s);
      assert Comes(CallProgram(P, Plain, j, f, vs, false, s), s, o);
    }
  }

  lemma GivesNothing(P: Program, k: nat, op: Op, es: seq<Code>, vs: seq<Value>, env: Store)
    requires AllStrict(op) && |vs| < |es| && Gives(P, k, es[|vs|], env, None)
    requires forall i {:trigger es[i]} :: 0 <= i < |vs| ==> Gives(P, k, es[i], env, Some(vs[i]))
    ensures Gives(P, k, Node(op, es), env, None)
  {
    forall s: State | s.val == env ensures Comes(Ev(P, k, Node(op, es), s), s, None) {
      OperandsFail(P, k, op, es, |es|, vs, env, s);
      NodeUnfolds(P, Plain, k, op, es, false, s);
    }
  }

  // ----- numbers -----

  lemma GivesIfZero(P: Program, k: nat, c: Code, a: Code, b: Code, env: Store, n: int, o: Option<Value>)
    requires Gives(P, k, c, env, Some(VInt(n))) && Gives(P, k, if n == 0 then a else b, env, o)
    ensures Gives(P, k, Node(IfZero, [c, a, b]), env, o)
  {
    forall s: State | s.val == env ensures Comes(Ev(P, k, Node(IfZero, [c, a, b]), s), s, o) {
      assert Ev(P, k, c, s) == (Ok(VInt(n)), s);
      NodeRuns(P, Plain, k, IfZero, [c, a, b], false, s, VInt(n), s);
      assert Comes(Ev(P, k, if n == 0 then a else b, s), s, o);
    }
  }

  lemma GivesIfNeg(P: Program, k: nat, c: Code, a: Code, b: Code, env: Store, n: int, o: Option<Value>)
    requires Gives(P, k, c, env, Some(VInt(n))) && Gives(P, k, if n < 0 then a else b, env, o)
    ensures Gives(P, k, Node(IfNeg, [c, a, b]), env, o)
  {
    forall s: State | s.val == env ensures Comes(Ev(P, k, Node(IfNeg, [c, a, b]), s), s, o) {
      assert Ev(P, k, c, s) == (Ok(VInt(n)), s);
      NodeRuns(P, Plain, k, IfNeg, [c, a, b], false, s, VInt(n), s);
      assert Comes(Ev(P, k, if n < 0 then a else b, s), s, o);
    }
  }

  lemma GivesArith(P: Program, k: nat, op: Op, a: Code, b: Code, env: Store, m: int, n: int)
    requires (op.Add? || op.Mul?) && Gives(P, k, a, env, Some(VInt(m))) && Gives(P, k, b, env, Some(VInt(n)))
    ensures Gives(P, k, Node(op, [a, b]), env, Some(VInt(if op.Add? then m + n else m * n)))
  {
    var es, vs := [a, b], [VInt(m), VInt(n)];
    forall s: State | s.val == env
      ensures Comes(Ev(P, k, Node(op, es), s), s, Some(VInt(if op.Add? then m + n else m * n))) {
      OperandsGive(P, k, op, es, vs, env, s);
      NodeUnfolds(P, Plain, k, op, es, false, s);
    }
  }

  // ----- programs -----

  ghost predicate Holds(env: Store, xs: seq<Name>, vs: seq<Value>)
    requires |xs| == |vs|
  {
    forall i {:trigger xs[i]} :: 0 <= i < |xs| ==> xs[i] in env && env[xs[i]] == vs[i]
  }

  lemma {:induction false} BindHoldsAll(env: Store, xs: seq<Name>, vs: seq<Value>)
    requires |xs| == |vs| && Distinct(xs)
    ensures Holds(Bind(env, xs, vs), xs, vs)
    decreases |xs|
  {
    if xs != [] {
      BindHoldsAll(env[xs[0] := vs[0]], xs[1..], vs[1..]);
      forall i {:trigger xs[i]} | 0 <= i < |xs|
        ensures xs[i] in Bind(env, xs, vs) && Bind(env, xs, vs)[xs[i]] == vs[i] {
        if i > 0 {
          assert xs[1..][i - 1] == xs[i];
        } else {
          forall j | 0 <= j < |xs| - 1 ensures xs[1..][j] != xs[0] { assert xs[1..][j] == xs[j + 1]; }
          BindElsewhere(env[xs[0] := vs[0]], xs[1..], vs[1..], xs[0]);
        }
      }
    }
  }

  predicate Defines(P: Program, f: Name, xs: seq<Name>, body: Code) {
    f in P.progs && P.progs[f].params == xs && P.progs[f].body == body && !P.progs[f].isFunction && Distinct(xs)
  }

  /** A call runs the body on its arguments. */
  lemma RunsBody(P: Program, k: nat, f: Name, xs: seq<Name>, body: Code, vs: seq<Value>, env: Store, o: Option<Value>)
    requires Defines(P, f, xs, body) && |xs| == |vs| && env == Bind(map[], xs, vs)
    requires Holds(env, xs, vs) ==> Gives(P, k, body, env, o)
    ensures CallGives(P, k, f, vs, o)
  {
    BindHoldsAll(map[], xs, vs);
    forall s: State ensures Comes(CallProgram(P, Plain, k, f, vs, false, s), s, o) {
      assert Comes(Ev(P, k, body, s.(val := env)), s.(val := env), o);
    }
  }

  // ----- the shipped cells -----

  /** Code without variables of its own, on the cells of the shipped interpreter
      and in an empty environment. */
  lemma OnCells(P: Program, k: nat, e: Code, s: State)
    requires ClosedProgram(P) && NoFunctions(P) && FreeVars(e) == {}
    ensures var (r, s1) := Run(P, Shipped, k, e, false, s);
      var (r', s2) := Ev(P, k, e, s.(val := map[]));
      r == r' && s1.marks == s2.marks && s1.cache == s2.cache && (Clean(r) ==> s1.val == s.val)
  {
    var T := Setting(P, true, false, false, f => 0, n => {});
    NoFunctionsOrderly(T);
    CellsRefine(T, k, e, Outside, s, map[]);
    var (r, s1) := Run(P, Shipped, k, e, false, s);
    if Clean(r) { LeftNothing(T, Outside, s.val, s1.val); }
  }

  lemma {:induction false} WithinAll(es: seq<Code>, xs: set<Name>)
    requires forall i {:trigger es[i]} :: 0 <= i < |es| ==> FreeVars(es[i]) <= xs
    ensures FreeVarsOfAll(es) <= xs
  {
    if es != [] {
      forall i {:trigger es[1..][i]} | 0 <= i < |es| - 1 ensures FreeVars(es[1..][i]) <= xs {
        assert es[1..][i] == es[i + 1];
      }
      WithinAll(es[1..], xs);
    }
  }

  /** Nothing else is free in a node than in its operands. */
  lemma WithinNode(op: Op, es: seq<Code>, xs: set<Name>)
    requires forall i {:trigger es[i]} :: 0 <= i < |es| ==> FreeVars(es[i]) <= xs
    ensures FreeVars(Node(op, es)) <= xs
  {
    WithinAll(es, xs);
  }

  lemma WithinMatch(x: Name, first: Case, second: Case, xs: set<Name>)
    requires x in xs && FreeVarsOfCase(first) <= xs && FreeVarsOfCase(second) <= xs
    ensures FreeVars(Match(Var(x), [first, second])) <= xs
  {
    var cases := [first, second];
    assert cases[1..] == [second] && [second][1..] == [];
    assert FreeVarsOfCases([second]) == FreeVarsOfCase(second) + FreeVarsOfCases([]);
    assert FreeVarsOfCases(cases) == FreeVarsOfCase(first) + FreeVarsOfCases([second]);
  }
}
