/** Caching the results of functions does not change what they compute, provided
    a cache hit puts the parameter cells back and functions set no marks. */
module Memo {
  import opened Code
  import opened Interp

  // ----- plain evaluation: frame and fuel -----

  /** A plain run leaves environment and cache alone, and more fuel does not
      change a result. */
  lemma {:induction false} PlainStep(P: Program, k: nat, e: Code, uc: bool, s: State)
    ensures Run(P, Plain, k, e, uc, s).1.val == s.val && Run(P, Plain, k, e, uc, s).1.cache == s.cache
    ensures !Run(P, Plain, k, e, uc, s).0.Diverged? ==> Run(P, Plain, k + 1, e, uc, s) == Run(P, Plain, k, e, uc, s)
    decreases k, e, 1
  {
    match e
    case Lit(_) =>
    case Var(_) =>
    case Let(x, rhs, body) =>
      PlainStep(P, k, rhs, uc, s);
      var (r0, s0) := Run(P, Plain, k, rhs, uc, s);
      if r0.Ok? { PlainStep(P, k, body, uc, s0.(val := s0.val[x := r0.v])); }
    case Match(scrut, cases) =>
      PlainStep(P, k, scrut, uc, s);
      var (r0, s0) := Run(P, Plain, k, scrut, uc, s);
      if r0.Ok? { PlainStepCases(P, k, cases, r0.v, uc, s0); }
    case Node(op, kids) =>
      if !(op.IfMarked? && uc) && |kids| == KidCount(op, |kids|) {
        var n := StrictKids(op, |kids|);
        PlainStepOperands(P, k, op, kids, n, uc, s);
        var (rs, s0) := Operands(P, Plain, k, op, kids, n, uc, s);
        if rs.Values? { PlainStepAct(P, k, Step(P, op, rs.vs, |kids|, s0.marks), kids, rs.vs, uc, s0); }
      }
  }

  lemma {:induction false} PlainStepAct(P: Program, k: nat, next: Next, kids: seq<Code>, vs: seq<Value>, uc: bool,
      s: State)
    requires next.Goto? ==> next.i < |kids|
    ensures Act(P, Plain, k, next, kids, vs, uc, s).1.val == s.val
      && Act(P, Plain, k, next, kids, vs, uc, s).1.cache == s.cache
    ensures !Act(P, Plain, k, next, kids, vs, uc, s).0.Diverged? ==>
              Act(P, Plain, k + 1, next, kids, vs, uc, s) == Act(P, Plain, k, next, kids, vs, uc, s)
    decreases k, kids, 0
  {
    if next.Goto? {
      PlainStep(P, k, kids[next.i], uc, s);
    } else if next.Enter? && k > 0 {
      PlainStepCall(P, k - 1, next.f, vs, uc, s);
    }
  }

  lemma {:induction false} PlainStepOperands(P: Program, k: nat, op: Op, es: seq<Code>, n: nat, uc: bool, s: State)
    requires n <= |es|
    ensures Operands(P, Plain, k, op, es, n, uc, s).1.val == s.val
      && Operands(P, Plain, k, op, es, n, uc, s).1.cache == s.cache
    ensures Operands(P, Plain, k, op, es, n, uc, s).0 != Stopped(Diverged) ==>
              Operands(P, Plain, k + 1, op, es, n, uc, s) == Operands(P, Plain, k, op, es, n, uc, s)
    decreases k, es, 0
  {
    if n > 0 {
      PlainStep(P, k, es[0], uc, s);
      var (r, s0) := Run(P, Plain, k, es[0], uc, s);
      if r.Ok? { PlainStepOperands(P, k, op, es[1..], n - 1, uc, s0); }
    }
  }

  lemma {:induction false} PlainStepCases(P: Program, k: nat, cases: seq<Case>, v: Value, uc: bool, s: State)
    ensures RunCases(P, Plain, k, cases, v, uc, s).1.val == s.val
      && RunCases(P, Plain, k, cases, v, uc, s).1.cache == s.cache
    ensures !RunCases(P, Plain, k, cases, v, uc, s).0.Diverged? ==>
              RunCases(P, Plain, k + 1, cases, v, uc, s) == RunCases(P, Plain, k, cases, v, uc, s)
    decreases k, cases, 0
  {
    if cases != [] {
      if Selects(cases[0], v) {
        PlainStepCase(P, k, cases[0], v, uc, s);
      } else {
        PlainStepCases(P, k, cases[1..], v, uc, s);
      }
    }
  }

  lemma {:induction false} PlainStepCase(P: Program, k: nat, c: Case, v: Value, uc: bool, s: State)
    requires Selects(c, v)
    ensures RunCase(P, Plain, k, c, v, uc, s).1.val == s.val && RunCase(P, Plain, k, c, v, uc, s).1.cache == s.cache
    ensures !RunCase(P, Plain, k, c, v, uc, s).0.Diverged? ==>
              RunCase(P, Plain, k + 1, c, v, uc, s) == RunCase(P, Plain, k, c, v, uc, s)
    decreases k, c, 0
  {
    match c
    case Default(body) => PlainStep(P, k, body, uc, s);
    case Case(_, xs, body) =>
      if |xs| == |v.args| { PlainStep(P, k, body, uc, s.(val := Bind(s.val, xs, v.args))); }
  }

  lemma {:induction false} PlainStepCall(P: Program, k: nat, f: Name, vs: seq<Value>, uc: bool, s: State)
    ensures CallProgram(P, Plain, k, f, vs, uc, s).1.val == s.val
      && CallProgram(P, Plain, k, f, vs, uc, s).1.cache == s.cache
    ensures !CallProgram(P, Plain, k, f, vs, uc, s).0.Diverged? ==>
              CallProgram(P, Plain, k + 1, f, vs, uc, s) == CallProgram(P, Plain, k, f, vs, uc, s)
    decreases k
  {
    if f in P.progs && |vs| == |P.progs[f].params| {
      var pr := P.progs[f];
      PlainStep(P, k, pr.body, pr.isFunction, s.(val := Bind(map[], pr.params, vs)));
    }
  }

  // ----- plain evaluation does not depend on the fuel that it did not use -----

  lemma {:induction false} PlainMore(P: Program, k: nat, j: nat, e: Code, uc: bool, s: State)
    requires k <= j && !Run(P, Plain, k, e, uc, s).0.Diverged?
    ensures Run(P, Plain, j, e, uc, s) == Run(P, Plain, k, e, uc, s)
    decreases j - k
  {
    if k < j { PlainStep(P, k, e, uc, s); PlainMore(P, k + 1, j, e, uc, s); }
  }

  lemma PlainUnique(P: Program, k: nat, j: nat, e: Code, uc: bool, s: State)
    requires !Run(P, Plain, k, e, uc, s).0.Diverged? && !Run(P, Plain, j, e, uc, s).0.Diverged?
    ensures Run(P, Plain, j, e, uc, s) == Run(P, Plain, k, e, uc, s)
  {
    if k <= j { PlainMore(P, k, j, e, uc, s); } else { PlainMore(P, j, k, e, uc, s); }
  }

  lemma {:induction false} OperandsMore(P: Program, k: nat, j: nat, op: Op, es: seq<Code>, n: nat, uc: bool, s: State)
    requires n <= |es| && k <= j && Operands(P, Plain, k, op, es, n, uc, s).0 != Stopped(Diverged)
    ensures Operands(P, Plain, j, op, es, n, uc, s) == Operands(P, Plain, k, op, es, n, uc, s)
    decreases j - k
  {
    if k < j { PlainStepOperands(P, k, op, es, n, uc, s); OperandsMore(P, k + 1, j, op, es, n, uc, s); }
  }

  lemma OperandsUnique(P: Program, k: nat, j: nat, op: Op, es: seq<Code>, n: nat, uc: bool, s: State)
    requires n <= |es|
    requires Operands(P, Plain, k, op, es, n, uc, s).0 != Stopped(Diverged)
    requires Operands(P, Plain, j, op, es, n, uc, s).0 != Stopped(Diverged)
    ensures Operands(P, Plain, j, op, es, n, uc, s) == Operands(P, Plain, k, op, es, n, uc, s)
  {
    if k <= j { OperandsMore(P, k, j, op, es, n, uc, s); } else { OperandsMore(P, j, k, op, es, n, uc, s); }
  }

  // ----- functions without marks -----

  predicate MarkFree(e: Code) {
    match e
    case Lit(_) => true
    case Var(_) => true
    case Let(_, rhs, body) => MarkFree(rhs) && MarkFree(body)
    case Match(s, cases) => MarkFree(s) && MarkFreeCases(cases)
    case Node(op, kids) => !op.MarkVar? && MarkFreeKids(kids)
  }

  predicate MarkFreeKids(es: seq<Code>) { es == [] || (MarkFree(es[0]) && MarkFreeKids(es[1..])) }

  predicate MarkFreeCases(cases: seq<Case>) { cases == [] || (MarkFreeCase(cases[0]) && MarkFreeCases(cases[1..])) }

  predicate MarkFreeCase(k: Case) { MarkFree(k.body) }

  ghost predicate FunctionsMarkFree(P: Program) {
    forall f :: f in P.progs && P.progs[f].isFunction ==> MarkFree(P.progs[f].body)
  }

  lemma {:induction false} KidMarkFree(es: seq<Code>, i: nat)
    requires MarkFreeKids(es) && i < |es|
    ensures MarkFree(es[i])
  {
    if i > 0 { KidMarkFree(es[1..], i - 1); }
  }

  /** The same run with other marks. */
  function Remarked(res: (Outcome, State), m: set<(Name, nat)>): (Outcome, State) { (res.0, res.1.(marks := m)) }

  lemma StepIgnoresMarks(P: Program, op: Op, vs: seq<Value>, n: nat, m: set<(Name, nat)>, m': set<(Name, nat)>)
    requires n == KidCount(op, n) && |vs| == StrictKids(op, n) && !op.MarkVar? && !op.IfMarked?
    requires NeedsSymbols(op) ==> AllSymbols(vs)
    ensures var a, b := Step(P, op, vs, n, m), Step(P, op, vs, n, m');
            if a.Return? then a.marks == m && b == Return(a.v, m') else b == a
  {
  }

  /** In the body of a function the marks are neither read nor written. */
  lemma {:induction false} MarksIrrelevant(P: Program, k: nat, e: Code, s: State, m: set<(Name, nat)>)
    requires FunctionsMarkFree(P) && MarkFree(e)
    ensures Run(P, Plain, k, e, true, s.(marks := m)) == Remarked(Run(P, Plain, k, e, true, s), m)
    ensures Run(P, Plain, k, e, true, s).1.marks == s.marks
    decreases k, e, 1
  {
    match e
    case Lit(_) =>
    case Var(_) =>
    case Let(x, rhs, body) =>
      MarksIrrelevant(P, k, rhs, s, m);
      var (r0, s0) := Run(P, Plain, k, rhs, true, s);
      if r0.Ok? { MarksIrrelevant(P, k, body, s0.(val := s0.val[x := r0.v]), m); }
    case Match(scrut, cases) =>
      MarksIrrelevant(P, k, scrut, s, m);
      var (r0, s0) := Run(P, Plain, k, scrut, true, s);
      if r0.Ok? { MarksIrrelevantCases(P, k, cases, r0.v, s0, m); }
    case Node(op, kids) =>
      if !op.IfMarked? && |kids| == KidCount(op, |kids|) {
        var n := StrictKids(op, |kids|);
        MarksIrrelevantOperands(P, k, op, kids, n, s, m);
        var (rs, s0) := Operands(P, Plain, k, op, kids, n, true, s);
        if rs.Values? {
          StepIgnoresMarks(P, op, rs.vs, |kids|, s.marks, m);
          MarksIrrelevantAct(P, k, Step(P, op, rs.vs, |kids|, s.marks), Step(P, op, rs.vs, |kids|, m), kids, rs.vs, s0,
            m);
        }
      }
  }

  lemma {:induction false} MarksIrrelevantAct(P: Program, k: nat, next: Next, next': Next, kids: seq<Code>,
      vs: seq<Value>, s: State, m: set<(Name, nat)>)
    requires FunctionsMarkFree(P) && MarkFreeKids(kids) && (next.Goto? ==> next.i < |kids|)
    requires if next.Return? then next.marks == s.marks && next' == Return(next.v, m) else next' == next
    ensures Act(P, Plain, k, next', kids, vs, true, s.(marks := m))
      == Remarked(Act(P, Plain, k, next, kids, vs, true, s), m)
    ensures Act(P, Plain, k, next, kids, vs, true, s).1.marks == s.marks
    decreases k, kids, 0
  {
    if next.Goto? {
      KidMarkFree(kids, next.i);
      MarksIrrelevant(P, k, kids[next.i], s, m);
    } else if next.Enter? && k > 0 && next.f in P.progs && P.progs[next.f].isFunction
      && |vs| == |P.progs[next.f].params| {
      var pr := P.progs[next.f];
      MarksIrrelevant(P, k - 1, pr.body, s.(val := Bind(map[], pr.params, vs)), m);
    }
  }

  lemma {:induction false} MarksIrrelevantOperands(P: Program, k: nat, op: Op, es: seq<Code>, n: nat, s: State,
      m: set<(Name, nat)>)
    requires FunctionsMarkFree(P) && MarkFreeKids(es) && n <= |es|
    ensures var a, b :=
        Operands(P, Plain, k, op, es, n, true, s), Operands(P, Plain, k, op, es, n, true, s.(marks := m));
            b == (a.0, a.1.(marks := m)) && a.1.marks == s.marks
    decreases k, es, 0
  {
    if n > 0 {
      MarksIrrelevant(P, k, es[0], s, m);
      var (r, s0) := Run(P, Plain, k, es[0], true, s);
      if r.Ok? { MarksIrrelevantOperands(P, k, op, es[1..], n - 1, s0, m); }
    }
  }

  lemma {:induction false} MarksIrrelevantCases(P: Program, k: nat, cases: seq<Case>, v: Value, s: State,
      m: set<(Name, nat)>)
    requires FunctionsMarkFree(P) && MarkFreeCases(cases)
    ensures RunCases(P, Plain, k, cases, v, true, s.(marks := m))
      == Remarked(RunCases(P, Plain, k, cases, v, true, s), m)
    ensures RunCases(P, Plain, k, cases, v, true, s).1.marks == s.marks
    decreases k, cases, 0
  {
    if cases != [] {
      if Selects(cases[0], v) {
        MarksIrrelevantCase(P, k, cases[0], v, s, m);
      } else {
        MarksIrrelevantCases(P, k, cases[1..], v, s, m);
      }
    }
  }

  lemma {:induction false} MarksIrrelevantCase(P: Program, k: nat, c: Case, v: Value, s: State, m: set<(Name, nat)>)
    requires FunctionsMarkFree(P) && MarkFreeCase(c) && Selects(c, v)
    ensures RunCase(P, Plain, k, c, v, true, s.(marks := m)) == Remarked(RunCase(P, Plain, k, c, v, true, s), m)
    ensures RunCase(P, Plain, k, c, v, true, s).1.marks == s.marks
    decreases k, c, 0
  {
    match c
    case Default(body) => MarksIrrelevant(P, k, body, s, m);
    case Case(_, xs, body) =>
      if |xs| == |v.args| { MarksIrrelevant(P, k, body, s.(val := Bind(s.val, xs, v.args)), m); }
  }
}
