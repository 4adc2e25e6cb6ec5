/** Memoised evaluation against plain evaluation. */
module MemoTransparent {
  import opened Code
  import opened Interp
  import opened Memo

  function Strip(s: State): State { s.(cache := map[]) }

  /** The state in which the body of a function starts, but for the marks. */
  function Start(P: Program, key: Key): State
    requires key.0 in P.progs && |key.1| == |P.progs[key.0].params|
  {
    State(Bind(map[], P.progs[key.0].params, key.1), {}, map[])
  }

  ghost predicate Ends(P: Program, j: nat, e: Code, uc: bool, s: State) { !Run(P, Plain, j, e, uc, s).0.Diverged? }

  predicate IsKey(P: Program, key: Key) {
    key.0 in P.progs && P.progs[key.0].isFunction && |key.1| == |P.progs[key.0].params|
  }

  /** The call would end by plain evaluation with fuel j. */
  ghost predicate CallEnds(P: Program, j: nat, key: Key) {
    IsKey(P, key) && j > 0 && Ends(P, j - 1, P.progs[key.0].body, true, Start(P, key))
  }

  /** A cached result is what plain evaluation returns for the call. */
  ghost predicate EntryOk(P: Program, key: Key, v: Value) {
    IsKey(P, key) && exists k :: Run(P, Plain, k, P.progs[key.0].body, true, Start(P, key)).0 == Ok(v)
  }

  ghost predicate CacheOk(P: Program, cache: Cache) {
    forall key :: key in cache ==> EntryOk(P, key, cache[key])
  }

  /** `res` is the memoised run from s, `full` the plain run with enough fuel
      and `equal` the plain run with the same fuel. */
  ghost predicate Transparent(P: Program, s: State, res: (Outcome, State), full: (Outcome, State),
      equal: (Outcome, State)) {
    res.1.val == s.val && CacheOk(P, res.1.cache)
    && (!res.0.Diverged? ==> full == (res.0, Strip(res.1)))
    && (!equal.0.Diverged? ==> !res.0.Diverged?)
  }

  /** Whatever the run added to the cache belongs to a call that needs no more
      fuel than the run. */
  ghost predicate NewKey(key: Key, before: Cache, after: Cache) { key in after && key !in before }

  ghost predicate Bounded(P: Program, key: Key, j: nat, before: Cache, after: Cache, ends: bool) {
    NewKey(key, before, after) && ends ==> CallEnds(P, j, key)
  }

  function Max(a: nat, b: nat): nat { if a < b then b else a }

  lemma Settled(P: Program, k: nat, j: nat, e: Code, uc: bool, s: State)
    requires Ends(P, k, e, uc, s)
    ensures Ends(P, j, e, uc, s) ==> Run(P, Plain, j, e, uc, s) == Run(P, Plain, k, e, uc, s)
  {
    if Ends(P, j, e, uc, s) { PlainUnique(P, k, j, e, uc, s); }
  }

  lemma OperandsSettled(P: Program, k: nat, j: nat, op: Op, es: seq<Code>, n: nat, uc: bool, s: State)
    requires n <= |es| && OperandsEnd(P, k, op, es, n, uc, s)
    ensures OperandsEnd(P, j, op, es, n, uc, s) ==>
              Operands(P, Plain, j, op, es, n, uc, s) == Operands(P, Plain, k, op, es, n, uc, s)
  {
    if OperandsEnd(P, j, op, es, n, uc, s) { OperandsUnique(P, k, j, op, es, n, uc, s); }
  }

  lemma {:induction false} MemoRun(P: Program, fuel: nat, e: Code, uc: bool, s: State, key: Key, j: nat)
      returns (k: nat)
    requires FunctionsMarkFree(P) && CacheOk(P, s.cache) && (uc ==> MarkFree(e))
    ensures Transparent(P, s, Run(P, LexicalMemo, fuel, e, uc, s), Run(P, Plain, k, e, uc, Strip(s)),
                        Run(P, Plain, fuel, e, uc, Strip(s)))
    ensures Bounded(P, key, j, s.cache, Run(P, LexicalMemo, fuel, e, uc, s).1.cache,
                    Ends(P, j, e, uc, Strip(s)))
    decreases fuel, e, 2
  {
    match e
    case Lit(_) => k := 0;
    case Var(_) => k := 0;
    case Let(_, _, _) => k := MemoLet(P, fuel, e, uc, s, key, j);
    case Match(_, _) => k := MemoMatch(P, fuel, e, uc, s, key, j);
    case Node(_, _) => k := MemoNode(P, fuel, e, uc, s, key, j);
  }

  lemma {:induction false} MemoLet(P: Program, fuel: nat, e: Code, uc: bool, s: State, key: Key, j: nat)
      returns (k: nat)
    requires FunctionsMarkFree(P) && CacheOk(P, s.cache) && (uc ==> MarkFree(e)) && e.Let?
    ensures Transparent(P, s, Run(P, LexicalMemo, fuel, e, uc, s), Run(P, Plain, k, e, uc, Strip(s)),
                        Run(P, Plain, fuel, e, uc, Strip(s)))
    ensures Bounded(P, key, j, s.cache, Run(P, LexicalMemo, fuel, e, uc, s).1.cache,
                    Ends(P, j, e, uc, Strip(s)))
    decreases fuel, e, 1
  {
    var Let(x, rhs, body) := e;
    var k1 := MemoRun(P, fuel, rhs, uc, s, key, j);
    var (r0, s0) := Run(P, LexicalMemo, fuel, rhs, uc, s);
    k := k1;
    if r0.Ok? {
      var inner := s0.(val := s0.val[x := r0.v]);
      var k2 := MemoRun(P, fuel, body, uc, inner, key, j);
      k := Max(k1, k2);
      PlainMore(P, k1, k, rhs, uc, Strip(s));
      if Ends(P, k2, body, uc, Strip(inner)) { PlainMore(P, k2, k, body, uc, Strip(inner)); }
      Settled(P, k1, j, rhs, uc, Strip(s));
      Settled(P, k1, fuel, rhs, uc, Strip(s));
      assert Ends(P, j, e, uc, Strip(s)) ==> Ends(P, j, rhs, uc, Strip(s));
      assert Ends(P, j, e, uc, Strip(s)) ==> Ends(P, j, body, uc, Strip(inner));
    }
  }

  lemma {:induction false} MemoMatch(P: Program, fuel: nat, e: Code, uc: bool, s: State, key: Key, j: nat)
      returns (k: nat)
    requires FunctionsMarkFree(P) && CacheOk(P, s.cache) && (uc ==> MarkFree(e)) && e.Match?
    ensures Transparent(P, s, Run(P, LexicalMemo, fuel, e, uc, s), Run(P, Plain, k, e, uc, Strip(s)),
                        Run(P, Plain, fuel, e, uc, Strip(s)))
    ensures Bounded(P, key, j, s.cache, Run(P, LexicalMemo, fuel, e, uc, s).1.cache,
                    Ends(P, j, e, uc, Strip(s)))
    decreases fuel, e, 1
  {
    var Match(scrut, cases) := e;
    var k1 := MemoRun(P, fuel, scrut, uc, s, key, j);
    var (r0, s0) := Run(P, LexicalMemo, fuel, scrut, uc, s);
    k := k1;
    if r0.Ok? {
      var k2 := MemoCases(P, fuel, cases, r0.v, uc, s0, key, j);
      k := Max(k1, k2);
      PlainMore(P, k1, k, scrut, uc, Strip(s));
      if !RunCases(P, Plain, k2, cases, r0.v, uc, Strip(s0)).0.Diverged? {
        CasesMore(P, k2, k, cases, r0.v, uc, Strip(s0));
      }
      Settled(P, k1, j, scrut, uc, Strip(s));
      Settled(P, k1, fuel, scrut, uc, Strip(s));
      assert Ends(P, j, e, uc, Strip(s)) ==> Ends(P, j, scrut, uc, Strip(s));
      assert Ends(P, j, e, uc, Strip(s)) ==> CasesEnd(P, j, cases, r0.v, uc, Strip(s0));
    }
  }

  lemma {:induction false} CasesMore(P: Program, k: nat, j: nat, cases: seq<Case>, v: Value, uc: bool, s: State)
    requires k <= j && !RunCases(P, Plain, k, cases, v, uc, s).0.Diverged?
    ensures RunCases(P, Plain, j, cases, v, uc, s) == RunCases(P, Plain, k, cases, v, uc, s)
    decreases j - k
  {
    if k < j { PlainStepCases(P, k, cases, v, uc, s); CasesMore(P, k + 1, j, cases, v, uc, s); }
  }

  ghost predicate CasesEnd(P: Program, j: nat, cases: seq<Case>, v: Value, uc: bool, s: State) {
    !RunCases(P, Plain, j, cases, v, uc, s).0.Diverged?
  }

  lemma {:induction false} MemoCases(P: Program, fuel: nat, cases: seq<Case>, v: Value, uc: bool, s: State, key: Key,
      j: nat) returns (k: nat)
    requires FunctionsMarkFree(P) && CacheOk(P, s.cache) && (uc ==> MarkFreeCases(cases))
    ensures Transparent(P, s, RunCases(P, LexicalMemo, fuel, cases, v, uc, s),
      RunCases(P, Plain, k, cases, v, uc, Strip(s)),
                        RunCases(P, Plain, fuel, cases, v, uc, Strip(s)))
    ensures Bounded(P, key, j, s.cache, RunCases(P, LexicalMemo, fuel, cases, v, uc, s).1.cache,
                    CasesEnd(P, j, cases, v, uc, Strip(s)))
    decreases fuel, cases, 0
  {
    k := 0;
    if cases != [] {
      if Selects(cases[0], v) {
        k := MemoCase(P, fuel, cases[0], v, uc, s, key, j);
        assert CasesEnd(P, j, cases, v, uc, Strip(s)) ==> CaseEnds(P, j, cases[0], v, uc, Strip(s));
      } else {
        k := MemoCases(P, fuel, cases[1..], v, uc, s, key, j);
        assert CasesEnd(P, j, cases, v, uc, Strip(s)) ==> CasesEnd(P, j, cases[1..], v, uc, Strip(s));
      }
    }
  }

  ghost predicate CaseEnds(P: Program, j: nat, c: Case, v: Value, uc: bool, s: State)
    requires Selects(c, v)
  {
    !RunCase(P, Plain, j, c, v, uc, s).0.Diverged?
  }

  lemma {:induction false} MemoCase(P: Program, fuel: nat, c: Case, v: Value, uc: bool, s: State, key: Key, j: nat)
      returns (k: nat)
    requires FunctionsMarkFree(P) && CacheOk(P, s.cache) && (uc ==> MarkFreeCase(c)) && Selects(c, v)
    ensures Transparent(P, s, RunCase(P, LexicalMemo, fuel, c, v, uc, s), RunCase(P, Plain, k, c, v, uc, Strip(s)),
                        RunCase(P, Plain, fuel, c, v, uc, Strip(s)))
    ensures Bounded(P, key, j, s.cache, RunCase(P, LexicalMemo, fuel, c, v, uc, s).1.cache,
                    CaseEnds(P, j, c, v, uc, Strip(s)))
    decreases fuel, c, 0
  {
    k := 0;
    match c
    case Default(body) =>
      k := MemoRun(P, fuel, body, uc, s, key, j);
      assert CaseEnds(P, j, c, v, uc, Strip(s)) ==> Ends(P, j, body, uc, Strip(s));
    case Case(_, xs, body) =>
      if |xs| == |v.args| {
        var inner := s.(val := Bind(s.val, xs, v.args));
        k := MemoRun(P, fuel, body, uc, inner, key, j);
        assert CaseEnds(P, j, c, v, uc, Strip(s)) ==> Ends(P, j, body, uc, Strip(inner));
      }
  }

  ghost predicate OperandsEnd(P: Program, j: nat, op: Op, es: seq<Code>, n: nat, uc: bool, s: State)
    requires n <= |es|
  {
    Operands(P, Plain, j, op, es, n, uc, s).0 != Stopped(Diverged)
  }

  ghost predicate TransparentOperands(P: Program, s: State, res: (Results, State), full: (Results, State),
      equal: (Results, State)) {
    res.1.val == s.val && CacheOk(P, res.1.cache)
    && (res.0 != Stopped(Diverged) ==> full == (res.0, Strip(res.1)))
    && (equal.0 != Stopped(Diverged) ==> res.0 != Stopped(Diverged))
  }

  lemma {:induction false} MemoOperands(P: Program, fuel: nat, op: Op, es: seq<Code>, n: nat, uc: bool, s: State,
      key: Key, j: nat) returns (k: nat)
    requires FunctionsMarkFree(P) && CacheOk(P, s.cache) && (uc ==> MarkFreeKids(es)) && n <= |es|
    ensures TransparentOperands(P, s, Operands(P, LexicalMemo, fuel, op, es, n, uc, s),
                                Operands(P, Plain, k, op, es, n, uc, Strip(s)),
                                Operands(P, Plain, fuel, op, es, n, uc, Strip(s)))
    ensures Bounded(P, key, j, s.cache, Operands(P, LexicalMemo, fuel, op, es, n, uc, s).1.cache,
                    OperandsEnd(P, j, op, es, n, uc, Strip(s)))
    decreases fuel, es, 1
  {
    k := 0;
    if n > 0 {
      k := MemoRun(P, fuel, es[0], uc, s, key, j);
      var (r0, s0) := Run(P, LexicalMemo, fuel, es[0], uc, s);
      if r0.Ok? && !(NeedsSymbols(op) && !IsSymbol(r0.v)) {
        k := MemoTail(P, fuel, op, es, n, uc, s, key, j, k, r0.v, s0);
      } else {
        HeadStops(P, fuel, op, es, n, uc, s, k);
        HeadEnds(P, j, op, es, n, uc, Strip(s));
      }
    }
  }

  /** The operands after the first. */
  lemma {:induction false} MemoTail(P: Program, fuel: nat, op: Op, es: seq<Code>, n: nat, uc: bool, s: State, key: Key,
      j: nat, k1: nat, v: Value, s0: State)
    returns (k: nat)
    requires FunctionsMarkFree(P) && CacheOk(P, s0.cache) && (uc ==> MarkFreeKids(es)) && 0 < n <= |es|
    requires Run(P, LexicalMemo, fuel, es[0], uc, s) == (Ok(v), s0)
    requires s0.val == s.val && (NeedsSymbols(op) ==> IsSymbol(v))
    requires Run(P, Plain, k1, es[0], uc, Strip(s)) == (Ok(v), Strip(s0))
    requires Bounded(P, key, j, s.cache, s0.cache, Ends(P, j, es[0], uc, Strip(s)))
    ensures TransparentOperands(P, s, Operands(P, LexicalMemo, fuel, op, es, n, uc, s),
                                Operands(P, Plain, k, op, es, n, uc, Strip(s)),
                                Operands(P, Plain, fuel, op, es, n, uc, Strip(s)))
    ensures Bounded(P, key, j, s.cache, Operands(P, LexicalMemo, fuel, op, es, n, uc, s).1.cache,
                    OperandsEnd(P, j, op, es, n, uc, Strip(s)))
    decreases fuel, es, 0
  {
    var k2 := MemoOperands(P, fuel, op, es[1..], n - 1, uc, s0, key, j);
    k := Max(k1, k2);
    ConsTransparent(P, fuel, op, es, n, uc, s, v, s0, k1, k2);
    OperandKeys(P, fuel, op, es, n, uc, s, key, j, k1, v, s0);
  }

  /** New keys come from the first operand or from the others. */
  lemma OperandKeys(P: Program, fuel: nat, op: Op, es: seq<Code>, n: nat, uc: bool, s: State, key: Key, j: nat,
                    k1: nat, v: Value, s0: State)
    requires 0 < n <= |es|
    requires Run(P, LexicalMemo, fuel, es[0], uc, s) == (Ok(v), s0) && (NeedsSymbols(op) ==> IsSymbol(v))
    requires Run(P, Plain, k1, es[0], uc, Strip(s)) == (Ok(v), Strip(s0))
    requires Bounded(P, key, j, s.cache, s0.cache, Ends(P, j, es[0], uc, Strip(s)))
    requires Bounded(P, key, j, s0.cache, Operands(P, LexicalMemo, fuel, op, es[1..], n - 1, uc, s0).1.cache,
                     OperandsEnd(P, j, op, es[1..], n - 1, uc, Strip(s0)))
    ensures Bounded(P, key, j, s.cache, Operands(P, LexicalMemo, fuel, op, es, n, uc, s).1.cache,
                    OperandsEnd(P, j, op, es, n, uc, Strip(s)))
  {
    TailEnds(P, k1, j, op, es, n, uc, Strip(s), v, Strip(s0));
    assert Operands(P, LexicalMemo, fuel, op, es, n, uc, s).1
      == Operands(P, LexicalMemo, fuel, op, es[1..], n - 1, uc, s0).1;
  }

  lemma HeadStops(P: Program, fuel: nat, op: Op, es: seq<Code>, n: nat, uc: bool, s: State, k: nat)
    requires 0 < n <= |es|
    requires Transparent(P, s, Run(P, LexicalMemo, fuel, es[0], uc, s), Run(P, Plain, k, es[0], uc, Strip(s)),
                         Run(P, Plain, fuel, es[0], uc, Strip(s)))
    requires var r := Run(P, LexicalMemo, fuel, es[0], uc, s).0; !r.Ok? || (NeedsSymbols(op) && !IsSymbol(r.v))
    ensures TransparentOperands(P, s, Operands(P, LexicalMemo, fuel, op, es, n, uc, s),
                                Operands(P, Plain, k, op, es, n, uc, Strip(s)),
                                Operands(P, Plain, fuel, op, es, n, uc, Strip(s)))
    ensures Operands(P, LexicalMemo, fuel, op, es, n, uc, s).1 == Run(P, LexicalMemo, fuel, es[0], uc, s).1
  {
  }

  lemma ConsTransparent(P: Program, fuel: nat, op: Op, es: seq<Code>, n: nat, uc: bool, s: State, v: Value, s0: State,
                        k1: nat, k2: nat)
    requires 0 < n <= |es| && (NeedsSymbols(op) ==> IsSymbol(v))
    requires Run(P, LexicalMemo, fuel, es[0], uc, s) == (Ok(v), s0) && s0.val == s.val
    requires Run(P, Plain, k1, es[0], uc, Strip(s)) == (Ok(v), Strip(s0))
    requires TransparentOperands(P, s0, Operands(P, LexicalMemo, fuel, op, es[1..], n - 1, uc, s0),
                                 Operands(P, Plain, k2, op, es[1..], n - 1, uc, Strip(s0)),
                                 Operands(P, Plain, fuel, op, es[1..], n - 1, uc, Strip(s0)))
    ensures TransparentOperands(P, s, Operands(P, LexicalMemo, fuel, op, es, n, uc, s),
                                Operands(P, Plain, Max(k1, k2), op, es, n, uc, Strip(s)),
                                Operands(P, Plain, fuel, op, es, n, uc, Strip(s)))
  {
    var k := Max(k1, k2);
    PlainMore(P, k1, k, es[0], uc, Strip(s));
    if OperandsEnd(P, k2, op, es[1..], n - 1, uc, Strip(s0)) {
      OperandsMore(P, k2, k, op, es[1..], n - 1, uc, Strip(s0));
    }
    TailEnds(P, k1, fuel, op, es, n, uc, Strip(s), v, Strip(s0));
  }

  lemma HeadEnds(P: Program, j: nat, op: Op, es: seq<Code>, n: nat, uc: bool, s: State)
    requires 0 < n <= |es|
    ensures OperandsEnd(P, j, op, es, n, uc, s) ==> Ends(P, j, es[0], uc, s)
  {
  }

  lemma TailEnds(P: Program, k: nat, j: nat, op: Op, es: seq<Code>, n: nat, uc: bool, s: State, v: Value, s0: State)
    requires 0 < n <= |es| && Run(P, Plain, k, es[0], uc, s) == (Ok(v), s0) && (NeedsSymbols(op) ==> IsSymbol(v))
    ensures OperandsEnd(P, j, op, es, n, uc, s) ==>
              Ends(P, j, es[0], uc, s) && Run(P, Plain, j, es[0], uc, s) == (Ok(v), s0)
              && OperandsEnd(P, j, op, es[1..], n - 1, uc, s0)
  {
    Settled(P, k, j, es[0], uc, s);
    HeadEnds(P, j, op, es, n, uc, s);
  }

  lemma {:induction false} MemoNode(P: Program, fuel: nat, e: Code, uc: bool, s: State, key: Key, j: nat)
      returns (k: nat)
    requires FunctionsMarkFree(P) && CacheOk(P, s.cache) && (uc ==> MarkFree(e)) && e.Node?
    ensures Transparent(P, s, Run(P, LexicalMemo, fuel, e, uc, s), Run(P, Plain, k, e, uc, Strip(s)),
                        Run(P, Plain, fuel, e, uc, Strip(s)))
    ensures Bounded(P, key, j, s.cache, Run(P, LexicalMemo, fuel, e, uc, s).1.cache,
                    Ends(P, j, e, uc, Strip(s)))
    decreases fuel, e, 1
  {
    k := 0;
    var Node(op, kids) := e;
    if !(op.IfMarked? && uc) && |kids| == KidCount(op, |kids|) {
      var n := StrictKids(op, |kids|);
      var k1 := MemoOperands(P, fuel, op, kids, n, uc, s, key, j);
      var (rs, s0) := Operands(P, LexicalMemo, fuel, op, kids, n, uc, s);
      k := k1;
      assert Ends(P, j, e, uc, Strip(s)) ==> OperandsEnd(P, j, op, kids, n, uc, Strip(s));
      if rs.Values? {
        var next := Step(P, op, rs.vs, |kids|, s0.marks);
        var k2 := MemoAct(P, fuel, next, kids, rs.vs, uc, s0, key, j);
        k := Max(k1, k2);
        OperandsMore(P, k1, k, op, kids, n, uc, Strip(s));
        if ActEnds(P, k2, next, kids, rs.vs, uc, Strip(s0)) { ActMore(P, k2, k, next, kids, rs.vs, uc, Strip(s0)); }
        OperandsSettled(P, k1, j, op, kids, n, uc, Strip(s));
        OperandsSettled(P, k1, fuel, op, kids, n, uc, Strip(s));
        assert Ends(P, j, e, uc, Strip(s)) ==> ActEnds(P, j, next, kids, rs.vs, uc, Strip(s0));
      }
    }
  }

  ghost predicate ActEnds(P: Program, j: nat, next: Next, kids: seq<Code>, vs: seq<Value>, uc: bool, s: State)
    requires next.Goto? ==> next.i < |kids|
  {
    !Act(P, Plain, j, next, kids, vs, uc, s).0.Diverged?
  }

  lemma {:induction false} ActMore(P: Program, k: nat, j: nat, next: Next, kids: seq<Code>, vs: seq<Value>, uc: bool,
      s: State)
    requires next.Goto? ==> next.i < |kids|
    requires k <= j && !Act(P, Plain, k, next, kids, vs, uc, s).0.Diverged?
    ensures Act(P, Plain, j, next, kids, vs, uc, s) == Act(P, Plain, k, next, kids, vs, uc, s)
    decreases j - k
  {
    if k < j { PlainStepAct(P, k, next, kids, vs, uc, s); ActMore(P, k + 1, j, next, kids, vs, uc, s); }
  }

  lemma {:induction false} MemoAct(P: Program, fuel: nat, next: Next, kids: seq<Code>, vs: seq<Value>, uc: bool,
      s: State, key: Key, j: nat)
    returns (k: nat)
    requires FunctionsMarkFree(P) && CacheOk(P, s.cache) && (uc ==> MarkFreeKids(kids))
    requires next.Goto? ==> next.i < |kids|
    ensures Transparent(P, s, Act(P, LexicalMemo, fuel, next, kids, vs, uc, s),
      Act(P, Plain, k, next, kids, vs, uc, Strip(s)),
                        Act(P, Plain, fuel, next, kids, vs, uc, Strip(s)))
    ensures Bounded(P, key, j, s.cache, Act(P, LexicalMemo, fuel, next, kids, vs, uc, s).1.cache,
                    ActEnds(P, j, next, kids, vs, uc, Strip(s)))
    decreases fuel, kids, 0
  {
    k := 0;
    if next.Goto? {
      if uc { KidMarkFree(kids, next.i); }
      k := MemoRun(P, fuel, kids[next.i], uc, s, key, j);
      assert ActEnds(P, j, next, kids, vs, uc, Strip(s)) ==> Ends(P, j, kids[next.i], uc, Strip(s));
    } else if next.Enter? && fuel > 0 {
      k := MemoCall(P, fuel - 1, next.f, vs, uc, s, key, if j == 0 then 0 else j - 1);
      k := k + 1;
      assert ActEnds(P, j, next, kids, vs, uc, Strip(s)) ==>
          j > 0 && ProgramEnds(P, j - 1, next.f, vs, uc, Strip(s));
    }
  }

  ghost predicate ProgramEnds(P: Program, j: nat, f: Name, vs: seq<Value>, uc: bool, s: State) {
    !CallProgram(P, Plain, j, f, vs, uc, s).0.Diverged?
  }

  lemma {:induction false} MemoCall(P: Program, fuel: nat, f: Name, vs: seq<Value>, uc: bool, s: State, key: Key,
      j: nat) returns (k: nat)
    requires FunctionsMarkFree(P) && CacheOk(P, s.cache)
    ensures Transparent(P, s, CallProgram(P, LexicalMemo, fuel, f, vs, uc, s),
      CallProgram(P, Plain, k, f, vs, uc, Strip(s)),
                        CallProgram(P, Plain, fuel, f, vs, uc, Strip(s)))
    ensures Bounded(P, key, j + 1, s.cache, CallProgram(P, LexicalMemo, fuel, f, vs, uc, s).1.cache,
                    ProgramEnds(P, j, f, vs, uc, Strip(s)))
    decreases fuel
  {
    k := 0;
    if f in P.progs && |vs| == |P.progs[f].params| {
      var pr := P.progs[f];
      if pr.isFunction {
        if KeyOf(P, f, vs, s.cache) in s.cache {
          k := HitIsPlain(P, f, vs, s);
        } else {
          var inner := Inner(P, f, vs, s);
          k := MemoRun(P, fuel, pr.body, true, inner, key, j);
          var (r, s0) := Run(P, LexicalMemo, fuel, pr.body, true, inner);
          MissIsPlain(P, fuel, f, vs, uc, s, k, r, s0);
          MissKeys(P, f, vs, uc, s, r, s0.cache, key, j);
        }
      } else if !uc {
        var inner := s.(val := Bind(map[], pr.params, vs));
        k := MemoRun(P, fuel, pr.body, false, inner, key, j);
        assert ProgramEnds(P, j, f, vs, uc, Strip(s)) ==> Ends(P, j, pr.body, false, Strip(inner));
        if CallEnds(P, j, key) { CallEndsMore(P, j, key); }
      }
    }
  }

  lemma CallEndsMore(P: Program, j: nat, key: Key)
    requires CallEnds(P, j, key)
    ensures CallEnds(P, j + 1, key)
  {
    PlainStep(P, j - 1, P.progs[key.0].body, true, Start(P, key));
  }

  /** A hit returns what the plain call returns. */
  lemma {:induction false} HitIsPlain(P: Program, f: Name, vs: seq<Value>, s: State) returns (k: nat)
    requires FunctionsMarkFree(P) && CacheOk(P, s.cache) && KeyOf(P, f, vs, s.cache) in s.cache
    ensures forall uc ::
      CallProgram(P, Plain, k, f, vs, uc, Strip(s)) == (Ok(s.cache[KeyOf(P, f, vs, s.cache)]), Strip(s))
  {
    var key := KeyOf(P, f, vs, s.cache);
    var pr := P.progs[f];
    k :| Run(P, Plain, k, pr.body, true, Start(P, key)).0 == Ok(s.cache[key]);
    MarksIrrelevant(P, k, pr.body, Start(P, key), s.marks);
    PlainStep(P, k, pr.body, true, Start(P, key));
  }

  /** Whatever the marks, the body ends or does not end. */
  lemma BodyEnds(P: Program, j: nat, key: Key, s: State)
    requires FunctionsMarkFree(P) && IsKey(P, key) && s == Start(P, key).(marks := s.marks)
    ensures Ends(P, j, P.progs[key.0].body, true, s) <==> Ends(P, j, P.progs[key.0].body, true, Start(P, key))
    ensures Run(P, Plain, j, P.progs[key.0].body, true, s).0
      == Run(P, Plain, j, P.progs[key.0].body, true, Start(P, key)).0
  {
    MarksIrrelevant(P, j, P.progs[key.0].body, Start(P, key), s.marks);
  }

  /** The state in which a call from state s runs the body. */
  function Inner(P: Program, f: Name, vs: seq<Value>, s: State): State
    requires IsKey(P, KeyOf(P, f, vs, s.cache))
  {
    s.(val := Bind(map[], P.progs[f].params, vs))
  }

  /** A function that is not cached yet: its body was run and the result is stored. */
  lemma {:induction false} MissIsPlain(P: Program, fuel: nat, f: Name, vs: seq<Value>, uc: bool, s: State, k: nat,
                                       r: Outcome, s0: State)
    requires FunctionsMarkFree(P) && CacheOk(P, s.cache) && IsKey(P, KeyOf(P, f, vs, s.cache))
      && KeyOf(P, f, vs, s.cache) !in s.cache
    requires (r, s0) == Run(P, LexicalMemo, fuel, P.progs[f].body, true, Inner(P, f, vs, s))
    requires Transparent(P, Inner(P, f, vs, s), (r, s0),
      Run(P, Plain, k, P.progs[f].body, true, Strip(Inner(P, f, vs, s))),
                         Run(P, Plain, fuel, P.progs[f].body, true, Strip(Inner(P, f, vs, s))))
    ensures Transparent(P, s, CallProgram(P, LexicalMemo, fuel, f, vs, uc, s),
      CallProgram(P, Plain, k, f, vs, uc, Strip(s)),
                        CallProgram(P, Plain, fuel, f, vs, uc, Strip(s)))
    ensures CallProgram(P, LexicalMemo, fuel, f, vs, uc, s).1.cache
      == if r.Ok? then s0.cache[KeyOf(P, f, vs, s.cache) := r.v] else s0.cache
  {
    if r.Ok? {
      BodyEnds(P, k, KeyOf(P, f, vs, s.cache), Strip(Inner(P, f, vs, s)));
      assert EntryOk(P, KeyOf(P, f, vs, s.cache), r.v);
    }
  }

  lemma MissKeys(P: Program, f: Name, vs: seq<Value>, uc: bool, s: State, r: Outcome, cache: Cache, key: Key, j: nat)
    requires FunctionsMarkFree(P) && IsKey(P, KeyOf(P, f, vs, s.cache))
    requires Bounded(P, key, j, s.cache, cache, Ends(P, j, P.progs[f].body, true, Strip(Inner(P, f, vs, s))))
    ensures Bounded(P, key, j + 1, s.cache, if r.Ok? then cache[KeyOf(P, f, vs, s.cache) := r.v] else cache,
                    ProgramEnds(P, j, f, vs, uc, Strip(s)))
  {
    BodyEnds(P, j, KeyOf(P, f, vs, s.cache), Strip(Inner(P, f, vs, s)));
    assert ProgramEnds(P, j, f, vs, uc, Strip(s)) ==> Ends(P, j, P.progs[f].body, true, Strip(Inner(P, f, vs, s)));
    if CallEnds(P, j, key) { CallEndsMore(P, j, key); }
  }

  // ----- the assertion in `setData` -----

  /** No call that returns contains itself: after the body of a function has
      returned a value, its result is not in the cache yet. */
  lemma StoredOnce(P: Program, fuel: nat, f: Name, vs: seq<Value>, s: State)
    requires FunctionsMarkFree(P) && CacheOk(P, s.cache) && IsKey(P, KeyOf(P, f, vs, s.cache))
      && KeyOf(P, f, vs, s.cache) !in s.cache
    ensures var inner := s.(val := Bind(map[], P.progs[f].params, vs));
            var (r, s0) := Run(P, LexicalMemo, fuel, P.progs[f].body, true, inner);
            r.Ok? ==> KeyOf(P, f, vs, s.cache) !in s0.cache
  {
    var key := KeyOf(P, f, vs, s.cache);
    var body := P.progs[f].body;
    var inner := s.(val := Bind(map[], P.progs[f].params, vs));
    var (r, s0) := Run(P, LexicalMemo, fuel, body, true, inner);
    var k := MemoRun(P, fuel, body, true, inner, key, 0);
    if r.Ok? && key in s0.cache {
      forall j: nat | Ends(P, j, body, true, Start(P, key)) ensures CallEnds(P, j, key) {
        var _ := MemoRun(P, fuel, body, true, inner, key, j);
        BodyEnds(P, j, key, Strip(inner));
        assert NewKey(key, inner.cache, s0.cache);
      }
      NoDescent(P, key, k);
      BodyEnds(P, k, key, Strip(inner));
    }
  }

  lemma {:induction false} NoDescent(P: Program, key: Key, k: nat)
    requires IsKey(P, key)
    requires forall j: nat :: Ends(P, j, P.progs[key.0].body, true, Start(P, key)) ==> CallEnds(P, j, key)
    ensures !Ends(P, k, P.progs[key.0].body, true, Start(P, key))
  {
    if k > 0 { NoDescent(P, key, k - 1); }
  }
}
