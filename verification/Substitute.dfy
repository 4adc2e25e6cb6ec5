/** `sc_substitute` of tests/tests/subs-27-let.plf, a function that calls itself,
    on the shipped cache. */
module Substitute {
  import opened Code
  import opened Interp
  import opened Cells
  import opened Lexical
  import opened Memo
  import opened MemoTransparent
  import opened ShippedLayers

  const TERM: Name := 0
  const APPLY: Name := 1
  const SUBSTITUTE: Name := 2

  const T: Name := 0
  const S: Name := 1
  const R: Name := 2
  const T1: Name := 3
  const T2: Name := 4

  function CallOn(x: Name): Code { Node(Call(SUBSTITUTE), [Var(x), Var(S), Var(R)]) }

  function Applied(): Code { Node(Construct(APPLY), [CallOn(T1), CallOn(T2)]) }

  function Compared(): Code { Node(IfEqual, [Var(T), Var(S), Var(R), Var(T)]) }

  function Body(): Code { Match(Var(T), [Case(APPLY, [T1, T2], Applied()), Default(Compared())]) }

  function Loaded(before: (Name, Name) -> bool, address: (Name, seq<Value>, Cache) -> nat): Program {
    Program(map[SUBSTITUTE := Prog([T, S, R], [Data(TERM), Data(TERM), Data(TERM)], Data(TERM), Body(), true)],
            before, address)
  }

  /** s and r are handed on. */
  function Ranked(P: Program): Setting { ShippedSetting(P, f => 0, n => {1, 2}) }

  // ----- what the code mentions -----

  /** Code without binders. */
  predicate Uses(e: Code, vars: set<Name>, calls: set<Name>) {
    FreeVars(e) == vars && Names(e) == vars && BoundIn(e) == {} && Calls(e) == calls
  }

  predicate AllUse(es: seq<Code>, vars: set<Name>, calls: set<Name>) {
    FreeVarsOfAll(es) == vars && NamesOfAll(es) == vars && BoundInAll(es) == {} && CallsOfAll(es) == calls
  }

  lemma FirstUses(e: Code, es: seq<Code>, v: set<Name>, vs: set<Name>, c: set<Name>, cs: set<Name>)
    requires Uses(e, v, c) && AllUse(es, vs, cs)
    ensures AllUse([e] + es, v + vs, c + cs)
  {
    assert ([e] + es)[1..] == es;
  }

  lemma VarsUse(xs: seq<Name>)
    ensures AllUse(AsVars(xs), Elements(xs), {})
  {
    if xs != [] {
      VarsUse(xs[1..]);
      FirstUses(Var(xs[0]), AsVars(xs[1..]), {xs[0]}, Elements(xs[1..]), {}, {});
      assert xs == [xs[0]] + xs[1..];
    }
  }

  function AsVars(xs: seq<Name>): seq<Code> { if xs == [] then [] else [Var(xs[0])] + AsVars(xs[1..]) }

  lemma CallUses(x: Name)
    ensures Uses(CallOn(x), {x, S, R}, {SUBSTITUTE})
  {
    var xs := [x, S, R];
    assert xs[1..] == [S, R] && xs[1..][1..] == [R];
    assert AsVars([R]) == [Var(R)] && AsVars([S, R]) == [Var(S), Var(R)] && AsVars(xs) == [Var(x), Var(S), Var(R)];
    VarsUse(xs);
  }

  lemma AppliedUses()
    ensures Uses(Applied(), {T1, T2, S, R}, {SUBSTITUTE})
  {
    CallUses(T1);
    CallUses(T2);
    FirstUses(CallOn(T2), [], {T2, S, R}, {}, {SUBSTITUTE}, {});
    FirstUses(CallOn(T1), [CallOn(T2)], {T1, S, R}, {T2, S, R}, {SUBSTITUTE}, {SUBSTITUTE});
    assert [CallOn(T1)] + [CallOn(T2)] == [CallOn(T1), CallOn(T2)];
  }

  lemma ComparedUses()
    ensures Uses(Compared(), {T, S, R}, {})
  {
    var xs := [T, S, R, T];
    assert xs[1..] == [S, R, T] && xs[1..][1..] == [R, T] && [R, T][1..] == [T];
    assert AsVars([T]) == [Var(T)] && AsVars([R, T]) == [Var(R), Var(T)];
    assert AsVars([S, R, T]) == [Var(S), Var(R), Var(T)] && AsVars(xs) == [Var(T), Var(S), Var(R), Var(T)];
    VarsUse(xs);
  }

  lemma BodyUses()
    ensures FreeVars(Body()) == {T, S, R} && Names(Body()) == {T, S, R, T1, T2} && BoundIn(Body()) == {T1, T2}
    ensures Calls(Body()) == {SUBSTITUTE} && FreeVarsOfCases(Body().cases) == {T, S, R}
  {
    CasesUse();
    ScrutUses();
  }

  lemma ScrutUses()
    ensures FreeVars(Var(T)) == Names(Var(T)) == {T} && BoundIn(Var(T)) == Calls(Var(T)) == {}
  {
  }

  lemma CasesUse()
    ensures var cases := Body().cases;
      && FreeVarsOfCases(cases) == {T, S, R} && NamesOfCases(cases) == {T, S, R, T1, T2}
      && BoundInCases(cases) == {T1, T2} && CallsOfCases(cases) == {SUBSTITUTE}
  {
    AppliedUses();
    ComparedUses();
    var first, last := Case(APPLY, [T1, T2], Applied()), Default(Compared());
    var cases := [first, last];
    assert cases[1..] == [last] && [last][1..] == [];
    assert Elements([T1, T2]) == {T1, T2};
    assert FreeVarsOfCase(first) == {S, R} && NamesOfCase(first) == {S, R, T1, T2};
    assert FreeVarsOfCases([last]) == {T, S, R} && NamesOfCases([last]) == {T, S, R};
    assert BoundInCases([last]) == {} && CallsOfCases([last]) == {};
  }

  // ----- it is orderly -----

  /** After the first call s and r are read, and t2, which is no parameter. */
  lemma AppliedTidy(P: Program)
    requires SUBSTITUTE in P.progs && P.progs[SUBSTITUTE].params == [T, S, R] && P.progs[SUBSTITUTE].isFunction
    requires P.progs.Keys == {SUBSTITUTE}
    ensures Tidy(Ranked(P), SUBSTITUTE, Applied())
  {
    CallUses(T1);
    CallUses(T2);
    FirstUses(CallOn(T2), [], {T2, S, R}, {}, {SUBSTITUTE}, {});
    CallTidy(P, T1);
    CallTidy(P, T2);
    var kids := [CallOn(T1), CallOn(T2)];
    assert kids[1..] == [CallOn(T2)];
    LooseIsT(P);
    assert kids[1..][1..] == [] && FreeVarsOfAll([]) == {};
    assert TidyKids(Ranked(P), SUBSTITUTE, [], 0);
    assert ReadsAfter(Ranked(P), SUBSTITUTE, Calls(CallOn(T2)), FreeVarsOfAll(kids[1..][1..]));
    assert TidyKids(Ranked(P), SUBSTITUTE, kids[1..], 1);
  }

  lemma LooseIsT(P: Program)
    requires SUBSTITUTE in P.progs && P.progs[SUBSTITUTE].params == [T, S, R] && P.progs.Keys == {SUBSTITUTE}
    ensures Ranked(P).LooseCells(0) <= {T}
  {
  }

  lemma CallTidy(P: Program, x: Name)
    requires SUBSTITUTE in P.progs && P.progs[SUBSTITUTE].params == [T, S, R]
    ensures Tidy(Ranked(P), SUBSTITUTE, CallOn(x))
  {
    var kids := [Var(x), Var(S), Var(R)];
    assert kids[1..] == [Var(S), Var(R)] && kids[1..][1..] == [Var(R)] && [Var(R)][1..] == [];
    assert TidyKids(Ranked(P), SUBSTITUTE, [], 0);
    VarTidy(P, R, [], 1);
    VarTidy(P, S, [Var(R)], 2);
    VarTidy(P, x, [Var(S), Var(R)], 3);
    assert [Var(R)] + [] == [Var(R)] && [Var(S)] + [Var(R)] == [Var(S), Var(R)] && [Var(x)] + [Var(S), Var(R)] == kids;
  }

  lemma VarTidy(P: Program, x: Name, es: seq<Code>, n: nat)
    requires SUBSTITUTE in P.progs && n > 0 && TidyKids(Ranked(P), SUBSTITUTE, es, n - 1)
    ensures TidyKids(Ranked(P), SUBSTITUTE, [Var(x)] + es, n)
  {
    var kids := [Var(x)] + es;
    assert kids[0] == Var(x) && kids[1..] == es;
    assert Calls(Var(x)) == {} && !Ranked(P).Deep(In(SUBSTITUTE, []), {});
    assert ReadsAfter(Ranked(P), SUBSTITUTE, Calls(kids[0]), FreeVarsOfAll(kids[1..]));
    assert Tidy(Ranked(P), SUBSTITUTE, kids[0]);
  }

  lemma ComparedTidy(P: Program)
    requires SUBSTITUTE in P.progs && P.progs[SUBSTITUTE].params == [T, S, R]
    ensures Tidy(Ranked(P), SUBSTITUTE, Compared())
  {
    var kids := [Var(T), Var(S), Var(R), Var(T)];
    ComparedUses();
    LowerIsTidy(Ranked(P), SUBSTITUTE, Compared());
  }

  lemma BodyTidy(P: Program)
    requires SUBSTITUTE in P.progs && P.progs[SUBSTITUTE].params == [T, S, R] && P.progs[SUBSTITUTE].isFunction
    requires P.progs.Keys == {SUBSTITUTE}
    ensures Tidy(Ranked(P), SUBSTITUTE, Body())
  {
    var cases := [Case(APPLY, [T1, T2], Applied()), Default(Compared())];
    AppliedTidy(P);
    ComparedTidy(P);
    assert cases[1..] == [cases[1]] && [cases[1]][1..] == [];
    assert TidyCases(Ranked(P), SUBSTITUTE, []);
    assert TidyCases(Ranked(P), SUBSTITUTE, [cases[1]]) by { assert TidyCase(Ranked(P), SUBSTITUTE, cases[1]); }
    assert TidyCases(Ranked(P), SUBSTITUTE, cases) by { assert TidyCase(Ranked(P), SUBSTITUTE, cases[0]); }
    assert Calls(Var(T)) == {} && !Ranked(P).Deep(In(SUBSTITUTE, []), {});
  }

  /** A program table with one function. */
  lemma OneFunction(P: Program)
    requires P.progs.Keys == {SUBSTITUTE} && P.progs[SUBSTITUTE].isFunction && P.progs[SUBSTITUTE].params == [T, S, R]
    requires BoundIn(P.progs[SUBSTITUTE].body) == {T1, T2} && Tidy(Ranked(P), SUBSTITUTE, P.progs[SUBSTITUTE].body)
    ensures Orderly(Ranked(P))
  {
    assert Elements([T, S, R]) == {T, S, R};
    assert Ranked(P).OtherCells(SUBSTITUTE) == {};
  }

  lemma BodyMarkFree()
    ensures MarkFree(Body())
  {
    assert MarkFree(CallOn(T1)) && MarkFree(CallOn(T2)) by { CallMarkFree(T1); CallMarkFree(T2); }
    var kids := [CallOn(T1), CallOn(T2)];
    assert kids[1..] == [CallOn(T2)] && MarkFreeKids([CallOn(T2)]);
    assert MarkFree(Applied());
    VarsMarkFree([T, S, R, T]);
    ListOfVars();
    var cases := [Case(APPLY, [T1, T2], Applied()), Default(Compared())];
    assert cases[1..] == [cases[1]];
  }

  lemma ListOfVars()
    ensures AsVars([T, S, R, T]) == [Var(T), Var(S), Var(R), Var(T)]
  {
    assert [T, S, R, T][1..] == [S, R, T] && [S, R, T][1..] == [R, T] && [R, T][1..] == [T];
    assert AsVars([T]) == [Var(T)] && AsVars([R, T]) == [Var(R), Var(T)];
    assert AsVars([S, R, T]) == [Var(S), Var(R), Var(T)];
  }

  lemma VarsMarkFree(xs: seq<Name>)
    ensures MarkFreeKids(AsVars(xs))
  {
    if xs != [] { VarsMarkFree(xs[1..]); }
  }

  lemma CallMarkFree(x: Name)
    ensures MarkFree(CallOn(x))
  {
    var xs := [x, S, R];
    assert xs[1..] == [S, R] && xs[1..][1..] == [R];
    assert AsVars([R]) == [Var(R)] && AsVars([S, R]) == [Var(S), Var(R)] && AsVars(xs) == [Var(x), Var(S), Var(R)];
    VarsMarkFree(xs);
  }

  /** `sc_substitute` calls itself, hands s and r on, and does not read t after a
      call. */
  lemma SubstituteIsOrderly(before: (Name, Name) -> bool, address: (Name, seq<Value>, Cache) -> nat)
    ensures var P := Loaded(before, address); Orderly(Ranked(P)) && ClosedProgram(P) && FunctionsMarkFree(P)
  {
    var P := Loaded(before, address);
    BodyTidy(P);
    BodyUses();
    OneFunction(P);
    OneClosed(P);
    BodyMarkFree();
  }

  lemma OneClosed(P: Program)
    requires P.progs.Keys == {SUBSTITUTE} && P.progs[SUBSTITUTE].params == [T, S, R]
    requires FreeVars(P.progs[SUBSTITUTE].body) == {T, S, R}
    ensures ClosedProgram(P)
  {
    assert Elements([T, S, R]) == {T, S, R};
  }

  // ----- what it computes -----

  /** Every occurrence of s in t that is no application, replaced by r. */
  function Substituted(t: Value, s: Value, r: Value): Value {
    if t.VCon? && t.c == APPLY && |t.args| == 2 then
      VCon(APPLY, [Substituted(t.args[0], s, r), Substituted(t.args[1], s, r)])
    else if t == s then r
    else t
  }

  predicate IsTerm(t: Value) {
    t.VCon? && t.c == APPLY ==> |t.args| == 2 && IsTerm(t.args[0]) && IsTerm(t.args[1])
  }

  function Depth(t: Value): nat {
    if t.VCon? && t.c == APPLY && |t.args| == 2 then 1 + Max(Depth(t.args[0]), Depth(t.args[1])) else 0
  }

  /** The parameters hold the arguments. */
  predicate Holds(st: State, t: Value, s: Value, r: Value) {
    T in st.val && st.val[T] == t && S in st.val && st.val[S] == s && R in st.val && st.val[R] == r
  }

  lemma OperandVars(P: Program, k: nat, op: Op, xs: seq<Name>, st: State)
    requires forall x :: x in xs ==> x in st.val
    requires !NeedsSymbols(op)
    ensures Operands(P, Plain, k, op, AsVars(xs), |AsVars(xs)|, true, st) == (Values(ValuesOf(xs, st.val)), st)
  {
    if xs != [] {
      assert xs == [xs[0]] + xs[1..];
      OperandVars(P, k, op, xs[1..], st);
      assert AsVars(xs)[1..] == AsVars(xs[1..]);
    }
  }

  function ValuesOf(xs: seq<Name>, val: Store): seq<Value>
    requires forall x :: x in xs ==> x in val
  {
    if xs == [] then [] else [val[xs[0]]] + ValuesOf(xs[1..], val)
  }

  /** A call whose operands are variables. */
  lemma EvCall(P: Program, k: nat, x: Name, st: State)
    requires k > 0 && x in st.val && S in st.val && R in st.val
    ensures Run(P, Plain, k, CallOn(x), true, st)
      == CallProgram(P, Plain, k - 1, SUBSTITUTE, [st.val[x], st.val[S], st.val[R]], true, st)
  {
    ThreeVars(x);
    OperandVars(P, k, Call(SUBSTITUTE), [x, S, R], st);
    ThreeValues(x, st.val);
    NodeUnfolds(P, Plain, k, Call(SUBSTITUTE), CallOn(x).kids, true, st);
  }

  lemma ThreeVars(x: Name)
    ensures AsVars([x, S, R]) == CallOn(x).kids
  {
    assert [x, S, R][1..] == [S, R] && [S, R][1..] == [R];
    assert AsVars([R]) == [Var(R)] + [] == [Var(R)];
    assert AsVars([S, R]) == [Var(S)] + [Var(R)] == [Var(S), Var(R)];
    assert AsVars([x, S, R]) == [Var(x)] + [Var(S), Var(R)];
  }

  lemma ThreeValues(x: Name, val: Store)
    requires x in val && S in val && R in val
    ensures ValuesOf([x, S, R], val) == [val[x], val[S], val[R]]
  {
    assert [x, S, R][1..] == [S, R] && [S, R][1..] == [R];
    assert ValuesOf([R], val) == [val[R]] + [] == [val[R]];
    assert ValuesOf([S, R], val) == [val[S]] + [val[R]] == [val[S], val[R]];
    assert ValuesOf([x, S, R], val) == [val[x]] + [val[S], val[R]];
  }

  /** What a call of the function comes to. */
  ghost predicate Computes(P: Program, k: nat, t: Value, s: Value, r: Value) {
    forall st: State {:trigger CallProgram(P, Plain, k, SUBSTITUTE, [t, s, r], true, st)} ::
      CallProgram(P, Plain, k, SUBSTITUTE, [t, s, r], true, st) == (Ok(Substituted(t, s, r)), st)
  }

  lemma EvApplied(P: Program, k: nat, a: Value, b: Value, s: Value, r: Value, st: State)
    requires k > 0 && T1 in st.val && st.val[T1] == a && T2 in st.val && st.val[T2] == b
    requires S in st.val && st.val[S] == s && R in st.val && st.val[R] == r
    requires Computes(P, k - 1, a, s, r) && Computes(P, k - 1, b, s, r)
    ensures Run(P, Plain, k, Applied(), true, st)
      == (Ok(VCon(APPLY, [Substituted(a, s, r), Substituted(b, s, r)])), st)
  {
    var kids := [CallOn(T1), CallOn(T2)];
    var v, w := Substituted(a, s, r), Substituted(b, s, r);
    EvCall(P, k, T1, st);
    EvCall(P, k, T2, st);
    assert Operands(P, Plain, k, Construct(APPLY), kids[1..][1..], 0, true, st) == (Values([]), st);
    assert Operands(P, Plain, k, Construct(APPLY), kids[1..], 1, true, st) == (Values([w] + []), st);
    assert Operands(P, Plain, k, Construct(APPLY), kids, 2, true, st) == (Values([v] + ([w] + [])), st);
    assert [v] + ([w] + []) == [v, w];
    NodeUnfolds(P, Plain, k, Construct(APPLY), kids, true, st);
  }

  lemma EvCompared(P: Program, k: nat, t: Value, s: Value, r: Value, st: State)
    requires Holds(st, t, s, r)
    ensures Run(P, Plain, k, Compared(), true, st) == (Ok(if t == s then r else t), st)
  {
    var kids := [Var(T), Var(S), Var(R), Var(T)];
    assert Operands(P, Plain, k, IfEqual, kids[1..][1..], 0, true, st) == (Values([]), st);
    assert Operands(P, Plain, k, IfEqual, kids[1..], 1, true, st) == (Values([s] + []), st);
    assert Operands(P, Plain, k, IfEqual, kids, 2, true, st) == (Values([t] + ([s] + [])), st);
    assert [t] + ([s] + []) == [t, s];
    NodeUnfolds(P, Plain, k, IfEqual, kids, true, st);
    assert kids[2] == Var(R) && kids[3] == Var(T);
  }

  /** Plain evaluation of the body. */
  lemma EvBody(P: Program, k: nat, t: Value, s: Value, r: Value, st: State)
    requires Holds(st, t, s, r) && IsTerm(t)
    requires t.VCon? && t.c == APPLY ==>
      k > 0 && Computes(P, k - 1, t.args[0], s, r) && Computes(P, k - 1, t.args[1], s, r)
    ensures Run(P, Plain, k, Body(), true, st) == (Ok(Substituted(t, s, r)), st)
  {
    var first, last := Case(APPLY, [T1, T2], Applied()), Default(Compared());
    var cases := [first, last];
    assert Run(P, Plain, k, Var(T), true, st) == (Ok(t), st);
    if t.VCon? && t.c == APPLY {
      var inner := st.(val := st.val[T1 := t.args[0]][T2 := t.args[1]]);
      assert [T1, T2][1..] == [T2] && t.args[1..] == [t.args[1]];
      assert Bind(st.val[T1 := t.args[0]], [T2], [t.args[1]]) == inner.val;
      assert Bind(st.val, [T1, T2], t.args) == inner.val;
      EvApplied(P, k, t.args[0], t.args[1], s, r, inner);
      assert RunCase(P, Plain, k, first, t, true, st) == (Ok(Substituted(t, s, r)), st);
    } else {
      EvCompared(P, k, t, s, r, st);
      assert cases[1..][0] == last;
      assert RunCases(P, Plain, k, cases[1..], t, true, st) == RunCase(P, Plain, k, last, t, true, st);
    }
  }

  lemma {:induction false} SubstituteComputes(P: Program, k: nat, t: Value, s: Value, r: Value)
    requires SUBSTITUTE in P.progs && P.progs[SUBSTITUTE].params == [T, S, R] && P.progs[SUBSTITUTE].isFunction
    requires P.progs[SUBSTITUTE].body == Body() && IsTerm(t) && Depth(t) <= k
    ensures Computes(P, k, t, s, r)
    decreases t
  {
    if t.VCon? && t.c == APPLY {
      SubstituteComputes(P, k - 1, t.args[0], s, r);
      SubstituteComputes(P, k - 1, t.args[1], s, r);
    }
    forall st: State
      ensures CallProgram(P, Plain, k, SUBSTITUTE, [t, s, r], true, st) == (Ok(Substituted(t, s, r)), st) {
      EvFunction(P, k, t, s, r, true, st);
    }
  }

  lemma EvFunction(P: Program, k: nat, t: Value, s: Value, r: Value, uc: bool, st: State)
    requires SUBSTITUTE in P.progs && P.progs[SUBSTITUTE].params == [T, S, R] && P.progs[SUBSTITUTE].isFunction
    requires P.progs[SUBSTITUTE].body == Body() && IsTerm(t)
    requires t.VCon? && t.c == APPLY ==>
      k > 0 && Computes(P, k - 1, t.args[0], s, r) && Computes(P, k - 1, t.args[1], s, r)
    ensures CallProgram(P, Plain, k, SUBSTITUTE, [t, s, r], uc, st) == (Ok(Substituted(t, s, r)), st)
  {
    var val: Store := map[T := t][S := s][R := r];
    assert [T, S, R][1..] == [S, R] && [S, R][1..] == [R];
    assert [t, s, r][1..] == [s, r] && [s, r][1..] == [r];
    assert Bind(map[T := t][S := s], [R], [r]) == val;
    assert Bind(map[T := t], [S, R], [s, r]) == val;
    assert Bind(map[], [T, S, R], [t, s, r]) == val;
    EvBody(P, k, t, s, r, st.(val := val));
    MissUnfolds(P, Plain, k, SUBSTITUTE, [t, s, r], uc, st);
  }

  /** The shipped interpreter on `(sc_substitute t s r)`, from any correct cache
      and with arguments at any addresses: the substitution, marks as they were,
      and no cell touched but the three parameters. */
  lemma ShippedSubstitutes(before: (Name, Name) -> bool, address: (Name, seq<Value>, Cache) -> nat, k: nat,
      t: Value, s: Value, r: Value, st: State)
    requires IsTerm(t) && Depth(t) < k && CacheOk(Loaded(before, address), st.cache)
    ensures var P := Loaded(before, address);
      var (o, st') := Run(P, Shipped, k, Node(Call(SUBSTITUTE), [Lit(t), Lit(s), Lit(r)]), false, st);
      && o == Ok(Substituted(t, s, r)) && st'.marks == st.marks && CacheOk(P, st'.cache)
      && AgreeOutside(st'.val, st.val, {T, S, R})
  {
    var P := Loaded(before, address);
    var e := Node(Call(SUBSTITUTE), [Lit(t), Lit(s), Lit(r)]);
    var start := State(map[], st.marks, map[]);
    SubstituteIsOrderly(before, address);
    CallOnConstants(P, k, t, s, r, start);
    OneFunctionCells(P);
    ConstantsMention(t, s, r);
    var j := OrderlyIsPlain(P, f => 0, n => {1, 2}, k, e, st);
    PlainUnique(P, k, j, e, false, start);
  }

  lemma OneFunctionCells(P: Program)
    requires P.progs.Keys == {SUBSTITUTE} && P.progs[SUBSTITUTE].isFunction && P.progs[SUBSTITUTE].params == [T, S, R]
    ensures Ranked(P).FunctionCells() == {T, S, R}
  {
    assert T in [T, S, R] && S in [T, S, R] && R in [T, S, R];
  }

  lemma ConstantsMention(t: Value, s: Value, r: Value)
    ensures var e := Node(Call(SUBSTITUTE), [Lit(t), Lit(s), Lit(r)]); FreeVars(e) == {} && Names(e) == {}
  {
    var kids := [Lit(t), Lit(s), Lit(r)];
    assert kids[1..] == [Lit(s), Lit(r)] && kids[1..][1..] == [Lit(r)];
    assert FreeVarsOfAll([Lit(r)]) == NamesOfAll([Lit(r)]) == {};
    assert FreeVarsOfAll(kids[1..]) == NamesOfAll(kids[1..]) == {};
    assert FreeVarsOfAll(kids) == NamesOfAll(kids) == {};
  }

  lemma CallOnConstants(P: Program, k: nat, t: Value, s: Value, r: Value, st: State)
    requires SUBSTITUTE in P.progs && P.progs[SUBSTITUTE].params == [T, S, R] && P.progs[SUBSTITUTE].isFunction
    requires P.progs[SUBSTITUTE].body == Body() && IsTerm(t) && Depth(t) < k
    ensures Run(P, Plain, k, Node(Call(SUBSTITUTE), [Lit(t), Lit(s), Lit(r)]), false, st)
      == (Ok(Substituted(t, s, r)), st)
  {
    var kids := [Lit(t), Lit(s), Lit(r)];
    var op := Call(SUBSTITUTE);
    var j := k - 1;
    assert kids[1..] == [Lit(s), Lit(r)] && kids[1..][1..] == [Lit(r)] && [Lit(r)][1..] == [];
    assert Operands(P, Plain, k, op, [], 0, false, st) == (Values([]), st);
    assert Operands(P, Plain, k, op, [Lit(r)], 1, false, st) == (Values([r] + []), st);
    assert Operands(P, Plain, k, op, kids[1..], 2, false, st) == (Values([s] + ([r] + [])), st);
    assert Operands(P, Plain, k, op, kids, 3, false, st) == (Values([t] + ([s] + ([r] + []))), st);
    assert [t] + ([s] + ([r] + [])) == [t, s, r];
    NodeUnfolds(P, Plain, k, op, kids, false, st);
    if t.VCon? && t.c == APPLY {
      SubstituteComputes(P, j - 1, t.args[0], s, r);
      SubstituteComputes(P, j - 1, t.args[1], s, r);
    }
    EvFunction(P, j, t, s, r, false, st);
  }
}
