/** Global cells that are saved and restored behave like lexical scoping, up to
    what cache hits leave in parameter cells. */
module Lexical {
  import opened Code
  import opened Interp
  import opened Cells

  /** The refinement theorem for expressions. */
  lemma {:induction false} CellsRefine(S: Setting, fuel: nat, e: Code, w: Where, s: State, env: Store)
    requires Comparable(S) && Agree(s.val, env, FreeVars(e)) && Ready(S, w, e, env)
    ensures Same(S, w, S.Deep(w, Calls(e)), Run(S.P, S.Cells(), fuel, e, w.In?, s),
      Run(S.P, S.Scoped(), fuel, e, w.In?, s.(val := env)), s, env)
    decreases fuel, e, 1
  {
    match e
    case Lit(_) => LeftSame(S, w, s.val);
    case Var(_) => LeftSame(S, w, s.val);
    case Let(_, _, _) => LetRefines(S, fuel, e, w, s, env);
    case Match(_, _) => MatchRefines(S, fuel, e, w, s, env);
    case Node(_, _) => NodeRefines(S, fuel, e, w, s, env);
  }

  lemma LeftSame(S: Setting, w: Where, val: Store)
    ensures forall deep :: Left(S, w, deep, val, val)
  {
    forall deep, y ensures CellLeft(S, w, deep, val, val, y) { assert AgreeAt(val, val, y); }
  }

  lemma {:induction false} LetRefines(S: Setting, fuel: nat, e: Code, w: Where, s: State, env: Store)
    requires Comparable(S) && Agree(s.val, env, FreeVars(e)) && Ready(S, w, e, env) && e.Let?
    ensures Same(S, w, S.Deep(w, Calls(e)), Run(S.P, S.Cells(), fuel, e, w.In?, s),
      Run(S.P, S.Scoped(), fuel, e, w.In?, s.(val := env)), s, env)
    decreases fuel, e, 0
  {
    var Let(x, rhs, body) := e;
    var deep := S.Deep(w, Calls(e));
    var (r0, s0) := Run(S.P, S.Cells(), fuel, rhs, w.In?, s);
    var v := if r0.Ok? then r0.v else VInt(0);
    LetReady(S, w, e, env, v);
    CellsRefine(S, fuel, rhs, w, s, env);
    SameMore(S, w, S.Deep(w, Calls(rhs)), deep, (r0, s0), Run(S.P, S.Scoped(), fuel, rhs, w.In?, s.(val := env)), s,
      env);
    if r0.Ok? {
      ThenReads(S, w, Calls(rhs), Calls(e), s.val, s0.val, env, FreeVars(body) - {x}, Names(e), BoundIn(e));
      var inner := s0.(val := s0.val[x := v]);
      CellsRefine(S, fuel, body, w, inner, env[x := v]);
      LetSame(S, fuel, w, deep, body, x, v, s, s0, env);
    }
  }

  /** The scope of a `let`. */
  lemma LetSame(S: Setting, fuel: nat, w: Where, deep: bool, body: Code, x: Name, v: Value, s: State, s0: State,
      env: Store)
    requires S.Deep(w, Calls(body)) ==> deep
    requires Left(S, w, deep, s0.val, s.val) && StoredLow(S, w, deep, s.cache, s0.cache)
    requires var inner := s0.(val := s0.val[x := v]);
      Same(S, w, S.Deep(w, Calls(body)), Run(S.P, S.Cells(), fuel, body, w.In?, inner),
           Run(S.P, S.Scoped(), fuel, body, w.In?, inner.(val := env[x := v])), inner, env[x := v])
    ensures var (r1, s1) := Run(S.P, S.Cells(), fuel, body, w.In?, s0.(val := s0.val[x := v]));
      var (r2, s2) := Run(S.P, S.Scoped(), fuel, body, w.In?, s0.(val := env[x := v]));
      Same(S, w, deep, (r1, s1.(val := Restore(s1.val, [x], s0.val))), (r2, s2.(val := env)), s, env)
  {
    var inner := s0.(val := s0.val[x := v]);
    var (r1, s1) := Run(S.P, S.Cells(), fuel, body, w.In?, inner);
    if Clean(r1) {
      assert Bind(s0.val, [x], [v]) == s0.val[x := v];
      LeftMore(S, w, S.Deep(w, Calls(body)), deep, inner.val, s1.val);
      ScopeLeft(S, w, deep, s0.val, [x], [v], s1.val);
      LeftThen(S, w, deep, s.val, s0.val, Restore(s1.val, [x], s0.val));
    }
  }

  lemma {:induction false} MatchRefines(S: Setting, fuel: nat, e: Code, w: Where, s: State, env: Store)
    requires Comparable(S) && Agree(s.val, env, FreeVars(e)) && Ready(S, w, e, env) && e.Match?
    ensures Same(S, w, S.Deep(w, Calls(e)), Run(S.P, S.Cells(), fuel, e, w.In?, s),
      Run(S.P, S.Scoped(), fuel, e, w.In?, s.(val := env)), s, env)
    decreases fuel, e, 0
  {
    var Match(scrut, cases) := e;
    var deep := S.Deep(w, Calls(e));
    MatchReady(S, w, e, env);
    CellsRefine(S, fuel, scrut, w, s, env);
    var (r0, s0) := Run(S.P, S.Cells(), fuel, scrut, w.In?, s);
    SameMore(S, w, S.Deep(w, Calls(scrut)), deep, (r0, s0), Run(S.P, S.Scoped(), fuel, scrut, w.In?, s.(val := env)), s,
      env);
    if r0.Ok? {
      ThenReads(S, w, Calls(scrut), Calls(e), s.val, s0.val, env, FreeVarsOfCases(cases), Names(e), BoundIn(e));
      CasesRefine(S, fuel, cases, r0.v, w, s0, env);
      var r := RunCases(S.P, S.Cells(), fuel, cases, r0.v, w.In?, s0);
      var r' := RunCases(S.P, S.Scoped(), fuel, cases, r0.v, w.In?, s0.(val := env));
      SameMore(S, w, S.Deep(w, CallsOfCases(cases)), deep, r, r', s0, env);
      ThenSame(S, w, deep, r, r', s, s0, env);
    }
  }

  lemma StepEnters(P: Program, op: Op, vs: seq<Value>, n: nat, marks: set<(Name, nat)>)
    requires n == KidCount(op, n) && |vs| == StrictKids(op, n) && (NeedsSymbols(op) ==> AllSymbols(vs))
    ensures Step(P, op, vs, n, marks).Enter? ==> op == Call(Step(P, op, vs, n, marks).f)
    ensures Step(P, op, vs, n, marks).Goto? ==> StrictKids(op, n) <= Step(P, op, vs, n, marks).i
  {
  }

  lemma NodeUnfolds(P: Program, cfg: Config, fuel: nat, op: Op, kids: seq<Code>, uc: bool, s: State)
    requires !(op.IfMarked? && uc) && |kids| == KidCount(op, |kids|)
    ensures var (rs, s0) := Operands(P, cfg, fuel, op, kids, StrictKids(op, |kids|), uc, s);
      Run(P, cfg, fuel, Node(op, kids), uc, s) ==
        if rs.Stopped? then (rs.r, s0) else Act(P, cfg, fuel, Step(P, op, rs.vs, |kids|, s0.marks), kids, rs.vs, uc, s0)
  {
  }

  /** A node with one strict operand, once that has a value. */
  lemma NodeRuns(P: Program, cfg: Config, fuel: nat, op: Op, kids: seq<Code>, uc: bool, s: State, v: Value, s0: State)
    requires !(op.IfMarked? && uc) && |kids| == KidCount(op, |kids|) && StrictKids(op, |kids|) == 1 && |kids| >= 1
    requires Run(P, cfg, fuel, kids[0], uc, s) == (Ok(v), s0) && (NeedsSymbols(op) ==> IsSymbol(v))
    ensures Run(P, cfg, fuel, Node(op, kids), uc, s)
      == Act(P, cfg, fuel, Step(P, op, [v], |kids|, s0.marks), kids, [v], uc, s0)
  {
    assert Operands(P, cfg, fuel, op, kids[1..], 0, uc, s0) == (Values([]), s0);
    assert Operands(P, cfg, fuel, op, kids, 1, uc, s) == (Values([v] + []), s0);
    assert [v] + [] == [v];
  }

  lemma {:induction false} NodeRefines(S: Setting, fuel: nat, e: Code, w: Where, s: State, env: Store)
    requires Comparable(S) && Agree(s.val, env, FreeVars(e)) && Ready(S, w, e, env) && e.Node?
    ensures Same(S, w, S.Deep(w, Calls(e)), Run(S.P, S.Cells(), fuel, e, w.In?, s),
      Run(S.P, S.Scoped(), fuel, e, w.In?, s.(val := env)), s, env)
    decreases fuel, e, 0
  {
    var Node(op, kids) := e;
    LeftSame(S, w, s.val);
    if !(op.IfMarked? && w.In?) && |kids| == KidCount(op, |kids|) {
      var n := StrictKids(op, |kids|);
      var deep := S.Deep(w, Calls(e));
      OperandsRefine(S, fuel, op, kids, n, w, s, env);
      var (rs, s0) := Operands(S.P, S.Cells(), fuel, op, kids, n, w.In?, s);
      ResultsMore(S, w, S.Deep(w, CallsOfAll(kids)), deep, (rs, s0),
                  Operands(S.P, S.Scoped(), fuel, op, kids, n, w.In?, s.(val := env)), s, env);
      if rs.Values? {
        StepReady(S, w, e, env, rs, s0);
        ActRefines(S, fuel, Step(S.P, op, rs.vs, |kids|, s0.marks), kids, n, rs.vs, w, deep, s0, env);
      }
      NodeSame(S, fuel, op, kids, w, deep, s, env);
    }
  }

  /** What the operator does next may be done. */
  lemma StepReady(S: Setting, w: Where, e: Code, env: Store, rs: Results, s0: State)
    requires e.Node? && Ready(S, w, e, env) && |e.kids| == KidCount(e.op, |e.kids|)
    requires Evaluated(e.kids, StrictKids(e.op, |e.kids|), rs, s0.val, env) && rs.Values?
    requires NeedsSymbols(e.op) ==> AllSymbols(rs.vs)
    ensures var next := Step(S.P, e.op, rs.vs, |e.kids|, s0.marks);
      && (next.Goto? ==> Agree(s0.val, env, FreeVars(e.kids[next.i])))
      && (next.Enter? ==> Enters(S, w, next.f, rs.vs) && (S.Deep(w, {next.f}) ==> S.Deep(w, Calls(e))))
  {
    var n := StrictKids(e.op, |e.kids|);
    var next := Step(S.P, e.op, rs.vs, |e.kids|, s0.marks);
    StepEnters(S.P, e.op, rs.vs, |e.kids|, s0.marks);
    if next.Goto? { KidNames(e.kids[n..], next.i - n); }
    if next.Enter? { CallEnters(S, w, e, env, rs.vs); }
  }

  /** Steady parameters are handed on with the values they have. */
  lemma CallEnters(S: Setting, w: Where, e: Code, env: Store, vs: seq<Value>)
    requires e.Node? && e.op.Call? && Ready(S, w, e, env) && |vs| == |e.kids|
    requires forall i {:trigger e.kids[i]} :: 0 <= i < |vs| && e.kids[i].Var? ==>
      e.kids[i].x in env && vs[i] == env[e.kids[i].x]
    ensures Enters(S, w, e.op.f, vs)
  {
    if S.Traces() && w.In? && S.IsFunction(e.op.f) && S.rank(e.op.f) == S.rank(w.f) {
      assert e.op.f in Calls(e);
      assert Steadily(S, w, env);
      forall i | i in S.steady(S.rank(w.f)) ensures i < |vs| && i < |w.args| && vs[i] == w.args[i] {
        assert e.kids[i].Var?;
      }
    }
  }

  lemma ResultsMore(S: Setting, w: Where, deep: bool, deep': bool, r: (Results, State), r': (Results, State), s: State,
      env: Store)
    requires SameResults(S, w, deep, r, r', s, env) && (deep ==> deep')
    ensures SameResults(S, w, deep', r, r', s, env)
  {
    if r.0.Values? || Clean(r.0.r) { LeftMore(S, w, deep, deep', s.val, r.1.val); }
  }

  /** Operands and action make up a node. */
  lemma NodeSame(S: Setting, fuel: nat, op: Op, kids: seq<Code>, w: Where, deep: bool, s: State, env: Store)
    requires !(op.IfMarked? && w.In?) && |kids| == KidCount(op, |kids|)
    requires SameResults(S, w, deep, Operands(S.P, S.Cells(), fuel, op, kids, StrictKids(op, |kids|), w.In?, s),
      Operands(S.P, S.Scoped(), fuel, op, kids, StrictKids(op, |kids|), w.In?, s.(val := env)), s, env)
    requires var (rs, s0) := Operands(S.P, S.Cells(), fuel, op, kids, StrictKids(op, |kids|), w.In?, s);
      rs.Values? ==>
        var next := Step(S.P, op, rs.vs, |kids|, s0.marks);
        Same(S, w, deep, Act(S.P, S.Cells(), fuel, next, kids, rs.vs, w.In?, s0),
             Act(S.P, S.Scoped(), fuel, next, kids, rs.vs, w.In?, s0.(val := env)), s0, env)
    ensures Same(S, w, deep, Run(S.P, S.Cells(), fuel, Node(op, kids), w.In?, s),
                 Run(S.P, S.Scoped(), fuel, Node(op, kids), w.In?, s.(val := env)), s, env)
  {
    NodeUnfolds(S.P, S.Cells(), fuel, op, kids, w.In?, s);
    NodeUnfolds(S.P, S.Scoped(), fuel, op, kids, w.In?, s.(val := env));
    var (rs, s0) := Operands(S.P, S.Cells(), fuel, op, kids, StrictKids(op, |kids|), w.In?, s);
    if rs.Values? {
      var next := Step(S.P, op, rs.vs, |kids|, s0.marks);
      ThenSame(S, w, deep, Act(S.P, S.Cells(), fuel, next, kids, rs.vs, w.In?, s0),
               Act(S.P, S.Scoped(), fuel, next, kids, rs.vs, w.In?, s0.(val := env)), s, s0, env);
    }
  }

  lemma {:induction false} ActRefines(S: Setting, fuel: nat, next: Next, kids: seq<Code>, n: nat, vs: seq<Value>,
      w: Where, deep: bool, s: State, env: Store)
    requires Comparable(S)
    requires next.Goto? ==> next.i < |kids| && ReadyKids(S, w, kids, n, env)
    requires next.Goto? ==> Agree(s.val, env, FreeVars(kids[next.i])) && (S.Deep(w, CallsOfAll(kids)) ==> deep)
    requires next.Enter? ==> Enters(S, w, next.f, vs) && (S.Deep(w, {next.f}) ==> deep)
    ensures Same(S, w, deep, Act(S.P, S.Cells(), fuel, next, kids, vs, w.In?, s),
                 Act(S.P, S.Scoped(), fuel, next, kids, vs, w.In?, s.(val := env)), s, env)
    decreases fuel, kids, 0
  {
    LeftSame(S, w, s.val);
    if next.Goto? {
      var e := kids[next.i];
      KidReady(S, w, kids, n, env, next.i);
      CellsRefine(S, fuel, e, w, s, env);
      SameMore(S, w, S.Deep(w, Calls(e)), deep, Run(S.P, S.Cells(), fuel, e, w.In?, s),
               Run(S.P, S.Scoped(), fuel, e, w.In?, s.(val := env)), s, env);
    } else if next.Enter? && fuel > 0 {
      CallRefines(S, fuel - 1, next.f, vs, w, s, env);
      SameMore(S, w, S.Deep(w, {next.f}), deep, CallProgram(S.P, S.Cells(), fuel - 1, next.f, vs, w.In?, s),
               CallProgram(S.P, S.Scoped(), fuel - 1, next.f, vs, w.In?, s.(val := env)), s, env);
    }
  }

  /** What the others read is in order when the first n operands have values, and
      an operand that is a variable has its value. */
  ghost predicate Evaluated(es: seq<Code>, n: nat, rs: Results, val: Store, env: Store)
    requires n <= |es|
  {
    rs.Values? ==>
      && Agree(val, env, FreeVarsOfAll(es[n..])) && |rs.vs| == n
      && forall i {:trigger es[i]} :: 0 <= i < n && es[i].Var? ==> es[i].x in env && rs.vs[i] == env[es[i].x]
  }

  lemma {:induction false} OperandsRefine(S: Setting, fuel: nat, op: Op, es: seq<Code>, n: nat, w: Where, s: State,
      env: Store)
    requires Comparable(S) && n <= |es| && Agree(s.val, env, FreeVarsOfAll(es)) && ReadyKids(S, w, es, n, env)
    ensures SameResults(S, w, S.Deep(w, CallsOfAll(es)), Operands(S.P, S.Cells(), fuel, op, es, n, w.In?, s),
                        Operands(S.P, S.Scoped(), fuel, op, es, n, w.In?, s.(val := env)), s, env)
    ensures var (rs, s1) := Operands(S.P, S.Cells(), fuel, op, es, n, w.In?, s); Evaluated(es, n, rs, s1.val, env)
    decreases fuel, es, 0
  {
    LeftSame(S, w, s.val);
    if n == 0 {
      assert es[0..] == es;
    } else {
      var deep := S.Deep(w, CallsOfAll(es));
      KidsReady(S, w, es, n, env);
      CellsRefine(S, fuel, es[0], w, s, env);
      var (r, s0) := Run(S.P, S.Cells(), fuel, es[0], w.In?, s);
      SameMore(S, w, S.Deep(w, Calls(es[0])), deep, (r, s0),
               Run(S.P, S.Scoped(), fuel, es[0], w.In?, s.(val := env)), s, env);
      if r.Ok? {
        ThenReads(S, w, Calls(es[0]), CallsOfAll(es), s.val, s0.val, env, FreeVarsOfAll(es[1..]), NamesOfAll(es),
                  BoundInAll(es));
        OperandsRefine(S, fuel, op, es[1..], n - 1, w, s0, env);
        ResultsMore(S, w, S.Deep(w, CallsOfAll(es[1..])), deep,
                    Operands(S.P, S.Cells(), fuel, op, es[1..], n - 1, w.In?, s0),
                    Operands(S.P, S.Scoped(), fuel, op, es[1..], n - 1, w.In?, s0.(val := env)), s0, env);
      }
      OperandsSame(S, fuel, op, es, n, w, deep, s, env);
    }
  }

  /** The first operand and the others make up the operands. */
  lemma OperandsSame(S: Setting, fuel: nat, op: Op, es: seq<Code>, n: nat, w: Where, deep: bool, s: State, env: Store)
    requires 0 < n <= |es| && Agree(s.val, env, FreeVarsOfAll(es))
    requires Same(S, w, deep, Run(S.P, S.Cells(), fuel, es[0], w.In?, s),
      Run(S.P, S.Scoped(), fuel, es[0], w.In?, s.(val := env)), s, env)
    requires var (r, s0) := Run(S.P, S.Cells(), fuel, es[0], w.In?, s);
      var (rs, s1) := Operands(S.P, S.Cells(), fuel, op, es[1..], n - 1, w.In?, s0);
      r.Ok? ==> SameResults(S, w, deep, (rs, s1),
                            Operands(S.P, S.Scoped(), fuel, op, es[1..], n - 1, w.In?, s0.(val := env)), s0, env)
                && Evaluated(es[1..], n - 1, rs, s1.val, env)
    ensures SameResults(S, w, deep, Operands(S.P, S.Cells(), fuel, op, es, n, w.In?, s),
                        Operands(S.P, S.Scoped(), fuel, op, es, n, w.In?, s.(val := env)), s, env)
    ensures var (rs, s1) := Operands(S.P, S.Cells(), fuel, op, es, n, w.In?, s); Evaluated(es, n, rs, s1.val, env)
  {
    var (r, s0) := Run(S.P, S.Cells(), fuel, es[0], w.In?, s);
    if r.Ok? && !(NeedsSymbols(op) && !IsSymbol(r.v)) {
      var (rs, s1) := Operands(S.P, S.Cells(), fuel, op, es[1..], n - 1, w.In?, s0);
      if rs.Values? || Clean(rs.r) { LeftThen(S, w, deep, s.val, s0.val, s1.val); }
      assert es[n..] == es[1..][n - 1..];
      FirstEvaluated(es, n, r.v, rs, s1.val, env);
    }
  }

  lemma FirstEvaluated(es: seq<Code>, n: nat, v: Value, rs: Results, val: Store, env: Store)
    requires 0 < n <= |es| && Evaluated(es[1..], n - 1, rs, val, env)
    requires es[0].Var? ==> es[0].x in env && v == env[es[0].x]
    ensures rs.Values? ==> Evaluated(es, n, Values([v] + rs.vs), val, env)
  {
    assert es[n..] == es[1..][n - 1..];
    if rs.Values? {
      forall i {:trigger es[i]} | 0 <= i < n && es[i].Var? ensures es[i].x in env && ([v] + rs.vs)[i] == env[es[i].x] {
        if i > 0 { assert es[1..][i - 1] == es[i]; }
      }
    }
  }

  lemma {:induction false} CasesRefine(S: Setting, fuel: nat, cases: seq<Case>, v: Value, w: Where, s: State,
      env: Store)
    requires Comparable(S) && Agree(s.val, env, FreeVarsOfCases(cases)) && ReadyCases(S, w, cases, env)
    ensures Same(S, w, S.Deep(w, CallsOfCases(cases)), RunCases(S.P, S.Cells(), fuel, cases, v, w.In?, s),
                 RunCases(S.P, S.Scoped(), fuel, cases, v, w.In?, s.(val := env)), s, env)
    decreases fuel, cases, 0
  {
    LeftSame(S, w, s.val);
    if cases != [] {
      var deep := S.Deep(w, CallsOfCases(cases));
      CasesReady(S, w, cases, env);
      if Selects(cases[0], v) {
        CaseRefines(S, fuel, cases[0], v, w, s, env);
        SameMore(S, w, S.Deep(w, CallsOfCase(cases[0])), deep, RunCase(S.P, S.Cells(), fuel, cases[0], v, w.In?, s),
                 RunCase(S.P, S.Scoped(), fuel, cases[0], v, w.In?, s.(val := env)), s, env);
      } else {
        CasesRefine(S, fuel, cases[1..], v, w, s, env);
        SameMore(S, w, S.Deep(w, CallsOfCases(cases[1..])), deep,
                 RunCases(S.P, S.Cells(), fuel, cases[1..], v, w.In?, s),
                 RunCases(S.P, S.Scoped(), fuel, cases[1..], v, w.In?, s.(val := env)), s, env);
      }
    }
  }

  lemma {:induction false} CaseRefines(S: Setting, fuel: nat, k: Case, v: Value, w: Where, s: State, env: Store)
    requires Comparable(S) && Selects(k, v) && Agree(s.val, env, FreeVarsOfCase(k)) && ReadyCase(S, w, k, env)
    ensures Same(S, w, S.Deep(w, CallsOfCase(k)), RunCase(S.P, S.Cells(), fuel, k, v, w.In?, s),
                 RunCase(S.P, S.Scoped(), fuel, k, v, w.In?, s.(val := env)), s, env)
    decreases fuel, k, 0
  {
    LeftSame(S, w, s.val);
    match k
    case Default(body) =>
      CaseReady(S, w, k, env, [], []);
      CellsRefine(S, fuel, body, w, s, env);
    case Case(_, xs, body) =>
      if |xs| == |v.args| {
        CaseReady(S, w, k, env, xs, v.args);
        BindAgrees(s.val, env, xs, v.args, FreeVarsOfCase(k));
        var inner := s.(val := Bind(s.val, xs, v.args));
        CellsRefine(S, fuel, body, w, inner, Bind(env, xs, v.args));
        var (r, s1) := Run(S.P, S.Cells(), fuel, body, w.In?, inner);
        if Clean(r) { ScopeLeft(S, w, S.Deep(w, Calls(body)), s.val, xs, v.args, s1.val); }
      }
  }

  lemma {:induction false} CallRefines(S: Setting, fuel: nat, g: Name, vs: seq<Value>, w: Where, s: State, env: Store)
    requires Comparable(S) && Enters(S, w, g, vs)
    ensures Same(S, w, S.Deep(w, {g}), CallProgram(S.P, S.Cells(), fuel, g, vs, w.In?, s),
                 CallProgram(S.P, S.Scoped(), fuel, g, vs, w.In?, s.(val := env)), s, env)
    decreases fuel
  {
    LeftSame(S, w, s.val);
    if g in S.P.progs && |vs| == |S.P.progs[g].params| {
      var pr := S.P.progs[g];
      if S.memo && pr.isFunction && KeyOf(S.P, g, vs, s.cache) in s.cache {
        HitRefines(S, fuel, g, vs, w, s, env);
      } else if pr.isFunction || !w.In? {
        BodyRefines(S, fuel, g, vs, w, s);
        MissSame(S, fuel, g, vs, w, s, env);
      }
    }
  }

  /** A call that is not answered by the cache. */
  lemma MissUnfolds(P: Program, cfg: Config, fuel: nat, f: Name, vs: seq<Value>, uc: bool, s: State)
    requires f in P.progs && |vs| == |P.progs[f].params| && (P.progs[f].isFunction || !uc)
    requires !(cfg.memo && P.progs[f].isFunction && KeyOf(P, f, vs, s.cache) in s.cache)
    ensures var pr := P.progs[f];
      var (r, s0) := Run(P, cfg, fuel, pr.body, pr.isFunction,
                         s.(val := Bind(if cfg.lexical then map[] else s.val, pr.params, vs)));
      var s1 := s0.(val := Leave(cfg, s0.val, pr.params, s.val));
      CallProgram(P, cfg, fuel, f, vs, uc, s) ==
        (r, if cfg.memo && pr.isFunction && r.Ok? then s1.(cache := s1.cache[KeyOf(P, f, vs, s.cache) := r.v]) else s1)
  {
    var xs := P.progs[f].params;
    assert xs[..|vs|] == xs && vs[..|vs|] == vs;
  }

  /** A hit leaves the parameters of the function assigned. */
  lemma HitRefines(S: Setting, fuel: nat, g: Name, vs: seq<Value>, w: Where, s: State, env: Store)
    requires Comparable(S) && Enters(S, w, g, vs) && g in S.P.progs && |vs| == |S.P.progs[g].params|
    requires S.memo && S.P.progs[g].isFunction && KeyOf(S.P, g, vs, s.cache) in s.cache
    ensures Same(S, w, S.Deep(w, {g}), CallProgram(S.P, S.Cells(), fuel, g, vs, w.In?, s),
                 CallProgram(S.P, S.Scoped(), fuel, g, vs, w.In?, s.(val := env)), s, env)
  {
    var xs := S.P.progs[g].params;
    assert xs[..|vs|] == xs && vs[..|vs|] == vs;
    LeftSame(S, w, s.val);
    if !S.hit {
      forall y ensures CellLeft(S, w, S.Deep(w, {g}), Bind(s.val, xs, vs), s.val, y) { HitCell(S, w, g, vs, s.val, y); }
    }
  }

  lemma HitCell(S: Setting, w: Where, g: Name, vs: seq<Value>, val: Store, y: Name)
    requires S.Traces() && Enters(S, w, g, vs) && S.IsFunction(g) && |vs| == |S.P.progs[g].params|
    ensures CellLeft(S, w, S.Deep(w, {g}), Bind(val, S.P.progs[g].params, vs), val, y)
  {
    var xs := S.P.progs[g].params;
    if y in xs {
      var i := BindHolds(val, xs, vs, y);
      if w.In? && S.rank(g) == S.rank(w.f) {
        assert g in {g};
        if i in S.steady(S.rank(g)) { assert S.CellAt(S.rank(g), y, i); }
      }
    } else {
      BindElsewhere(val, xs, vs, y);
    }
  }

  /** Where the body of a program runs. */
  function Body(S: Setting, g: Name, vs: seq<Value>): Where { if S.IsFunction(g) then In(g, vs) else Outside }

  ghost predicate BodySame(S: Setting, fuel: nat, g: Name, vs: seq<Value>, w: Where, s: State)
    requires g in S.P.progs && |vs| == |S.P.progs[g].params|
  {
    var pr := S.P.progs[g];
    var r := Run(S.P, S.Cells(), fuel, pr.body, pr.isFunction, s.(val := Bind(s.val, pr.params, vs)));
    var r' := Run(S.P, S.Scoped(), fuel, pr.body, pr.isFunction, s.(val := Bind(map[], pr.params, vs)));
    && r.0 == r'.0 && r.1.marks == r'.1.marks && r.1.cache == r'.1.cache
    && (Clean(r.0) ==> Left(S, w, S.Deep(w, {g}), Restore(r.1.val, pr.params, s.val), s.val))
    && StoredLow(S, Body(S, g, vs), S.Deep(Body(S, g, vs), Calls(pr.body)), s.cache, r.1.cache)
  }

  /** A call that runs the body. */
  lemma MissSame(S: Setting, fuel: nat, g: Name, vs: seq<Value>, w: Where, s: State, env: Store)
    requires g in S.P.progs && |vs| == |S.P.progs[g].params| && (S.P.progs[g].isFunction || !w.In?)
    requires S.memo == S.memo' || !S.P.progs[g].isFunction
    requires !(S.memo && S.P.progs[g].isFunction && KeyOf(S.P, g, vs, s.cache) in s.cache)
    requires Enters(S, w, g, vs) && BodySame(S, fuel, g, vs, w, s)
    ensures Same(S, w, S.Deep(w, {g}), CallProgram(S.P, S.Cells(), fuel, g, vs, w.In?, s),
                 CallProgram(S.P, S.Scoped(), fuel, g, vs, w.In?, s.(val := env)), s, env)
  {
    MissUnfolds(S.P, S.Cells(), fuel, g, vs, w.In?, s);
    MissUnfolds(S.P, S.Scoped(), fuel, g, vs, w.In?, s.(val := env));
    assert g in {g};
  }

  /** The body of a program, from its parameters to putting them back. */
  lemma {:induction false} BodyRefines(S: Setting, fuel: nat, g: Name, vs: seq<Value>, w: Where, s: State)
    requires Comparable(S) && Enters(S, w, g, vs) && g in S.P.progs && |vs| == |S.P.progs[g].params|
    requires S.P.progs[g].isFunction || !w.In?
    ensures BodySame(S, fuel, g, vs, w, s)
    decreases fuel, S.P.progs[g].body, 2
  {
    var pr := S.P.progs[g];
    var w' := Body(S, g, vs);
    var env: Store := Bind(map[], pr.params, vs);
    var inner := s.(val := Bind(s.val, pr.params, vs));
    BindAgrees(s.val, map[], pr.params, vs, {});
    BodyReady(S, g, vs);
    CellsRefine(S, fuel, pr.body, w', inner, env);
    var (r, s1) := Run(S.P, S.Cells(), fuel, pr.body, pr.isFunction, inner);
    if Clean(r) {
      ScopeLeft(S, w', S.Deep(w', Calls(pr.body)), s.val, pr.params, vs, s1.val);
      var back := Restore(s1.val, pr.params, s.val);
      forall y ensures CellLeft(S, w, S.Deep(w, {g}), back, s.val, y) { BodyCell(S, g, vs, w, s.val, back, y); }
    }
  }

  lemma BodyReady(S: Setting, g: Name, vs: seq<Value>)
    requires Comparable(S) && g in S.P.progs && |vs| == |S.P.progs[g].params|
    ensures Ready(S, Body(S, g, vs), S.P.progs[g].body, Bind(map[], S.P.progs[g].params, vs))
  {
    var pr := S.P.progs[g];
    var w := Body(S, g, vs);
    if S.Traces() {
      assert OrderlyAt(S, g);
      if S.Deep(w, Calls(pr.body)) {
        assert S.Deep(In(g, []), Calls(pr.body));
        forall i | i in S.steady(S.rank(g))
          ensures var y := pr.params[i]; y in Bind(map[], pr.params, vs) && Bind(map[], pr.params, vs)[y] == vs[i] {
          var j := BindHolds(map[], pr.params, vs, pr.params[i]);
        }
      }
    }
  }

  lemma CellsInside(S: Setting, n: nat, m: nat)
    ensures S.LowerCells(n) + S.LooseCells(n) <= S.FunctionCells()
    ensures n < m ==> S.LowerCells(n) + S.LooseCells(n) <= S.LowerCells(m)
  {
    forall y | y in S.LooseCells(n) ensures y in S.FunctionCells() && (n < m ==> y in S.LowerCells(m)) {
      var h, i: nat :| h in S.P.progs && S.IsFunction(h) && S.rank(h) == n && i < |S.P.progs[h].params|
        && S.P.progs[h].params[i] == y;
      assert y in S.P.progs[h].params;
    }
  }

  /** What the body has left, seen from the caller. */
  lemma BodyCell(S: Setting, g: Name, vs: seq<Value>, w: Where, val: Store, cur: Store, y: Name)
    requires Enters(S, w, g, vs) && g in S.P.progs && (S.IsFunction(g) || !w.In?)
    requires Left(S, Body(S, g, vs), S.Deep(Body(S, g, vs), Calls(S.P.progs[g].body)), cur, val)
    ensures CellLeft(S, w, S.Deep(w, {g}), cur, val, y)
  {
    var w', n := Body(S, g, vs), S.rank(g);
    assert CellLeft(S, w', S.Deep(w', Calls(S.P.progs[g].body)), cur, val, y);
    assert g in {g};
    CellsInside(S, n, if w.In? then S.rank(w.f) else 0);
    if !AgreeAt(cur, val, y) && y !in S.Dirt(w', S.Deep(w', Calls(S.P.progs[g].body))) {
      var i: nat :| S.CellAt(n, y, i) && i in S.steady(n) && i < |vs| && cur[y] == vs[i];
      var h :| h in S.P.progs && S.IsFunction(h) && S.rank(h) == n && i < |S.P.progs[h].params|
        && S.P.progs[h].params[i] == y;
      assert y in S.P.progs[h].params;
      if w.In? && n == S.rank(w.f) { assert vs[i] == w.args[i]; }
    }
  }

  /** Without functions there is nothing to order, and no dirt. */
  lemma NoFunctionsOrderly(S: Setting)
    requires NoFunctions(S.P)
    ensures Orderly(S) && S.Dirt(Outside, false) == {}
  {
  }
}
