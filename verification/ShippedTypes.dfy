/** Type safety of the shipped interpreter, functions included. A cache hit
    leaves its arguments in the parameter cells, so the values that other code
    reads may be wrong; they still have the right type. */
module ShippedTypes {
  import opened Wrappers
  import opened Code
  import opened Interp
  import opened Cells
  import opened Lexical
  import opened CodeTypes

  /** The one type of every variable name. */
  type Types = map<Name, Type>

  /** Every binder gives its variables the types of `vt`. */
  predicate OneType(sig: Signature, P: Program, vt: Types, e: Code) {
    match e
    case Lit(_) => true
    case Var(_) => true
    case Let(x, rhs, body) =>
      x in vt && TypeOf(sig, P, vt, rhs) == Some(vt[x]) && OneType(sig, P, vt, rhs) && OneType(sig, P, vt, body)
    case Match(s, cases) => OneType(sig, P, vt, s) && OneTypeCases(sig, P, vt, cases)
    case Node(_, kids) => OneTypeKids(sig, P, vt, kids)
  }

  predicate OneTypeKids(sig: Signature, P: Program, vt: Types, es: seq<Code>) {
    es == [] || (OneType(sig, P, vt, es[0]) && OneTypeKids(sig, P, vt, es[1..]))
  }

  predicate OneTypeCases(sig: Signature, P: Program, vt: Types, cases: seq<Case>) {
    cases == [] || (OneTypeCase(sig, P, vt, cases[0]) && OneTypeCases(sig, P, vt, cases[1..]))
  }

  predicate OneTypeCase(sig: Signature, P: Program, vt: Types, k: Case) {
    (k.Case? && k.c in sig ==> Declared(vt, k.vars, sig[k.c].args)) && OneType(sig, P, vt, k.body)
  }

  predicate Declared(vt: Types, xs: seq<Name>, ts: seq<Type>) {
    |xs| == |ts| ==> forall i :: 0 <= i < |xs| ==> xs[i] in vt && vt[xs[i]] == ts[i]
  }

  ghost predicate OneTypePerName(sig: Signature, P: Program, vt: Types) {
    forall f :: f in P.progs ==>
      Declared(vt, P.progs[f].params, P.progs[f].types) && OneType(sig, P, vt, P.progs[f].body)
  }

  ghost predicate Within(ctx: Context, vt: Types) { forall x :: x in ctx ==> x in vt && vt[x] == ctx[x] }

  lemma {:induction false} DeclareWithin(ctx: Context, vt: Types, xs: seq<Name>, ts: seq<Type>)
    requires |xs| == |ts| && Within(ctx, vt) && Declared(vt, xs, ts)
    ensures Within(Declare(ctx, xs, ts), vt)
    decreases |xs|
  {
    if xs != [] {
      assert xs[0] in vt && vt[xs[0]] == ts[0];
      DeclareWithin(ctx[xs[0] := ts[0]], vt, xs[1..], ts[1..]);
    }
  }

  lemma {:induction false} DeclareNothing(vt: Types, xs: seq<Name>, ts: seq<Type>)
    requires |xs| == |ts| && Declared(vt, xs, ts)
    ensures Declare(vt, xs, ts) == vt
    decreases |xs|
  {
    if xs != [] {
      assert xs[0] in vt && vt[xs[0]] == ts[0];
      assert vt[xs[0] := ts[0]] == vt;
      DeclareNothing(vt, xs[1..], ts[1..]);
    }
  }

  // ----- code that was accepted in its scope has the same type among all names -----

  lemma {:induction false} TypedAmongAll(sig: Signature, P: Program, ctx: Context, vt: Types, e: Code)
    requires Within(ctx, vt) && OneType(sig, P, vt, e) && TypeOf(sig, P, ctx, e).Some?
    ensures TypeOf(sig, P, vt, e) == TypeOf(sig, P, ctx, e)
    decreases e, 1
  {
    match e
    case Lit(_) =>
    case Var(_) =>
    case Let(x, rhs, body) =>
      TypedAmongAll(sig, P, ctx, vt, rhs);
      TypedAmongAll(sig, P, ctx[x := vt[x]], vt, body);
      assert vt[x := vt[x]] == vt;
    case Match(s, cases) =>
      TypedAmongAll(sig, P, ctx, vt, s);
      CasesTypedAmongAll(sig, P, ctx, vt, cases);
    case Node(_, kids) => KidsTypedAmongAll(sig, P, ctx, vt, kids);
  }

  lemma {:induction false} KidsTypedAmongAll(sig: Signature, P: Program, ctx: Context, vt: Types, es: seq<Code>)
    requires Within(ctx, vt) && OneTypeKids(sig, P, vt, es) && TypeOfKids(sig, P, ctx, es).Some?
    ensures TypeOfKids(sig, P, vt, es) == TypeOfKids(sig, P, ctx, es)
    decreases es, 0
  {
    if es != [] {
      TypedAmongAll(sig, P, ctx, vt, es[0]);
      KidsTypedAmongAll(sig, P, ctx, vt, es[1..]);
    }
  }

  lemma {:induction false} CasesTypedAmongAll(sig: Signature, P: Program, ctx: Context, vt: Types, cases: seq<Case>)
    requires Within(ctx, vt) && OneTypeCases(sig, P, vt, cases) && TypeOfCases(sig, P, ctx, cases).Some?
    ensures TypeOfCases(sig, P, vt, cases) == TypeOfCases(sig, P, ctx, cases)
    decreases cases, 0
  {
    CaseTypedAmongAll(sig, P, ctx, vt, cases[0]);
    if |cases| > 1 { CasesTypedAmongAll(sig, P, ctx, vt, cases[1..]); }
  }

  lemma {:induction false} CaseTypedAmongAll(sig: Signature, P: Program, ctx: Context, vt: Types, k: Case)
    requires Within(ctx, vt) && OneTypeCase(sig, P, vt, k) && TypeOfCase(sig, P, ctx, k).Some?
    ensures TypeOfCase(sig, P, vt, k) == TypeOfCase(sig, P, ctx, k)
    decreases k, 0
  {
    match k
    case Default(body) => TypedAmongAll(sig, P, ctx, vt, body);
    case Case(c, xs, body) =>
      if xs == [] {
        TypedAmongAll(sig, P, ctx, vt, body);
      } else {
        DeclareWithin(ctx, vt, xs, sig[c].args);
        DeclareNothing(vt, xs, sig[c].args);
        TypedAmongAll(sig, P, Declare(ctx, xs, sig[c].args), vt, body);
      }
  }

  // ----- the invariant -----

  /** Every assigned cell holds a value of the type of its variable. */
  ghost predicate CellsTyped(sig: Signature, vt: Types, val: Store) {
    forall x :: x in val ==> x in vt && HasType(sig, val[x], vt[x])
  }

  ghost predicate CacheTyped(sig: Signature, P: Program, cache: Cache) {
    forall key: Key :: key in cache ==> key.0 in P.progs && HasType(sig, cache[key], P.progs[key.0].ret)
  }

  ghost predicate Typed(sig: Signature, P: Program, vt: Types, s: State) {
    CellsTyped(sig, vt, s.val) && CacheTyped(sig, P, s.cache)
  }

  /** What a run keeps: the types, and every assigned cell stays assigned. */
  ghost predicate Kept(sig: Signature, P: Program, vt: Types, s: State, s': State) {
    Typed(sig, P, vt, s') && s.val.Keys <= s'.val.Keys
  }

  /** The body of a program, among all names. */
  predicate AcceptedBody(sig: Signature, P: Program, vt: Types, f: Name)
    requires f in P.progs
  {
    var pr := P.progs[f];
    && |pr.params| == |pr.types| && Declared(vt, pr.params, pr.types) && BareNullary(sig, pr.body)
    && OneType(sig, P, vt, pr.body) && TypeOf(sig, P, vt, pr.body) == Some(pr.ret)
    && FreeVars(pr.body) <= Elements(pr.params)
  }

  ghost predicate Accepted(sig: Signature, P: Program, vt: Types) {
    && DataSignature(sig)
    && forall f {:trigger AcceptedBody(sig, P, vt, f)} :: f in P.progs ==> AcceptedBody(sig, P, vt, f)
  }

  lemma CheckedIsAccepted(sig: Signature, P: Program, vt: Types)
    requires DataSignature(sig) && CheckedProgram(sig, P) && OneTypePerName(sig, P, vt)
    ensures Accepted(sig, P, vt)
  {
    CheckedIsClosed(sig, P);
    forall f | f in P.progs ensures AcceptedBody(sig, P, vt, f) {
      var pr := P.progs[f];
      DeclareWithin(map[], vt, pr.params, pr.types);
      TypedAmongAll(sig, P, Declare(map[], pr.params, pr.types), vt, pr.body);
    }
  }

  lemma {:induction false} BindTyped(sig: Signature, vt: Types, val: Store, xs: seq<Name>, vs: seq<Value>,
      ts: seq<Type>)
    requires |xs| == |vs| == |ts| && CellsTyped(sig, vt, val) && Declared(vt, xs, ts) && HaveTypes(sig, vs, ts)
    ensures CellsTyped(sig, vt, Bind(val, xs, vs)) && Bind(val, xs, vs).Keys == val.Keys + Elements(xs)
    decreases |xs|
  {
    if xs != [] {
      ElementsSplit(xs);
      assert xs[0] in vt && vt[xs[0]] == ts[0] && HasType(sig, vs[0], ts[0]);
      BindTyped(sig, vt, val[xs[0] := vs[0]], xs[1..], vs[1..], ts[1..]);
    }
  }

  lemma {:induction false} RestoreTyped(sig: Signature, vt: Types, cur: Store, xs: seq<Name>, before: Store)
    requires CellsTyped(sig, vt, cur) && CellsTyped(sig, vt, before) && before.Keys <= cur.Keys
    ensures CellsTyped(sig, vt, Restore(cur, xs, before)) && before.Keys <= Restore(cur, xs, before).Keys
    decreases |xs|
  {
    if xs != [] { RestoreTyped(sig, vt, RestoreOne(cur, xs[0], before), xs[1..], before); }
  }

  // ----- type safety -----

  /** Accepted code with its variables assigned, run by the shipped interpreter
      with any fuel, cache and cells of the right types: a value of its type or
      an allowed failure, and cells and cache of the right types again. */
  lemma {:induction false} ShippedSafe(sig: Signature, P: Program, vt: Types, fuel: nat, e: Code, uc: bool, s: State,
      t: Type)
    requires Accepted(sig, P, vt) && Typed(sig, P, vt, s) && BareNullary(sig, e) && OneType(sig, P, vt, e)
    requires TypeOf(sig, P, vt, e) == Some(t) && FreeVars(e) <= s.val.Keys
    ensures var (r, s') := Run(P, Shipped, fuel, e, uc, s); Safe(sig, P, uc, r, t) && Kept(sig, P, vt, s, s')
    decreases fuel, e, 1
  {
    match e
    case Lit(_) =>
    case Var(_) =>
    case Let(x, rhs, body) =>
      ShippedSafe(sig, P, vt, fuel, rhs, uc, s, vt[x]);
      var (r0, s0) := Run(P, Shipped, fuel, rhs, uc, s);
      if r0.Ok? {
        assert vt[x := vt[x]] == vt;
        var inner := s0.(val := s0.val[x := r0.v]);
        ShippedSafe(sig, P, vt, fuel, body, uc, inner, t);
        RestoreTyped(sig, vt, Run(P, Shipped, fuel, body, uc, inner).1.val, [x], s0.val);
      }
    case Match(scrut, cases) =>
      var t0 := TypeOf(sig, P, vt, scrut).value;
      ShippedSafe(sig, P, vt, fuel, scrut, uc, s, t0);
      var (r0, s0) := Run(P, Shipped, fuel, scrut, uc, s);
      if r0.Ok? { CasesShipped(sig, P, vt, fuel, cases, r0.v, t0, uc, s0, t); }
    case Node(op, kids) => if !(op.IfMarked? && uc) { NodeShipped(sig, P, vt, fuel, op, kids, uc, s, t); }
  }

  lemma {:induction false} NodeShipped(sig: Signature, P: Program, vt: Types, fuel: nat, op: Op, kids: seq<Code>,
      uc: bool, s: State, t: Type)
    requires Accepted(sig, P, vt) && Typed(sig, P, vt, s) && !(op.IfMarked? && uc)
    requires BareNullary(sig, Node(op, kids)) && OneType(sig, P, vt, Node(op, kids))
    requires TypeOf(sig, P, vt, Node(op, kids)) == Some(t) && FreeVars(Node(op, kids)) <= s.val.Keys
    ensures var (r, s') := Run(P, Shipped, fuel, Node(op, kids), uc, s);
      Safe(sig, P, uc, r, t) && Kept(sig, P, vt, s, s')
    decreases fuel, kids, 2
  {
    var ts := TypeOfKids(sig, P, vt, kids).value;
    var n := StrictKids(op, |kids|);
    OperandsShipped(sig, P, vt, fuel, op, kids, n, uc, s);
    NodeUnfolds(P, Shipped, fuel, op, kids, uc, s);
    var (rs, s0) := Operands(P, Shipped, fuel, op, kids, n, uc, s);
    if rs.Values? {
      StepTyped(sig, P, op, rs.vs, ts, s0.marks, t);
      ActShipped(sig, P, vt, fuel, Step(P, op, rs.vs, |kids|, s0.marks), kids, rs.vs, uc, s0, t);
    }
  }

  lemma {:induction false} OneTypeKid(sig: Signature, P: Program, vt: Types, es: seq<Code>, i: nat)
    requires OneTypeKids(sig, P, vt, es) && i < |es|
    ensures OneType(sig, P, vt, es[i])
  {
    if i > 0 { OneTypeKid(sig, P, vt, es[1..], i - 1); }
  }

  lemma {:induction false} ActShipped(sig: Signature, P: Program, vt: Types, fuel: nat, next: Next, kids: seq<Code>,
      vs: seq<Value>, uc: bool, s: State, t: Type)
    requires Accepted(sig, P, vt) && Typed(sig, P, vt, s) && BareNullaryKids(sig, kids) && OneTypeKids(sig, P, vt, kids)
    requires TypeOfKids(sig, P, vt, kids).Some? && FreeVarsOfAll(kids) <= s.val.Keys
    requires StepSafe(sig, P, next, TypeOfKids(sig, P, vt, kids).value, vs, t)
    ensures var (r, s') := Act(P, Shipped, fuel, next, kids, vs, uc, s);
      Safe(sig, P, uc, r, t) && Kept(sig, P, vt, s, s')
    decreases fuel, kids, 0
  {
    if next.Goto? {
      KidTyped(sig, P, vt, kids, next.i);
      OneTypeKid(sig, P, vt, kids, next.i);
      KidNames(kids, next.i);
      ShippedSafe(sig, P, vt, fuel, kids[next.i], uc, s, t);
    } else if next.Enter? && fuel > 0 {
      CallShipped(sig, P, vt, fuel - 1, next.f, vs, uc, s, t);
    }
  }

  lemma {:induction false} OperandsShipped(sig: Signature, P: Program, vt: Types, fuel: nat, op: Op, es: seq<Code>,
      n: nat, uc: bool, s: State)
    requires Accepted(sig, P, vt) && Typed(sig, P, vt, s) && BareNullaryKids(sig, es) && OneTypeKids(sig, P, vt, es)
    requires TypeOfKids(sig, P, vt, es).Some? && FreeVarsOfAll(es) <= s.val.Keys && n <= |es|
    ensures OperandsTyped(sig, P, vt, fuel, op, es, n, uc, s)
    decreases fuel, es, 0
  {
    if n > 0 {
      var m := n - 1;
      ShippedSafe(sig, P, vt, fuel, es[0], uc, s, TypeOf(sig, P, vt, es[0]).value);
      var (r, s0) := Run(P, Shipped, fuel, es[0], uc, s);
      if r.Ok? { RestShipped(sig, P, vt, fuel, op, es, es[1..], m, uc, s, s0); }
      OneMoreShipped(sig, P, vt, fuel, op, es, n, uc, s);
    }
  }

  lemma {:induction false} RestShipped(sig: Signature, P: Program, vt: Types, fuel: nat, op: Op, es: seq<Code>,
      rest: seq<Code>, n: nat, uc: bool, s: State, s0: State)
    requires Accepted(sig, P, vt) && Typed(sig, P, vt, s) && Kept(sig, P, vt, s, s0) && es != [] && rest == es[1..]
    requires BareNullaryKids(sig, es) && OneTypeKids(sig, P, vt, es) && n <= |rest|
    requires TypeOfKids(sig, P, vt, es).Some? && FreeVarsOfAll(es) <= s.val.Keys
    ensures OperandsTyped(sig, P, vt, fuel, op, rest, n, uc, s0)
    decreases fuel, rest, 1
  {
    OperandsShipped(sig, P, vt, fuel, op, rest, n, uc, s0);
  }

  /** What operands that have been evaluated give. */
  ghost predicate OperandsTyped(sig: Signature, P: Program, vt: Types, fuel: nat, op: Op, es: seq<Code>, n: nat,
      uc: bool, s: State)
    requires TypeOfKids(sig, P, vt, es).Some? && n <= |es|
  {
    var rs := Operands(P, Shipped, fuel, op, es, n, uc, s);
    && Kept(sig, P, vt, s, rs.1)
    && (rs.0.Values? ==> HaveTypes(sig, rs.0.vs, TypeOfKids(sig, P, vt, es).value[..n]))
    && (rs.0.Stopped? && rs.0.r.Failed? ==> MayFail(P, uc, rs.0.r.why))
  }

  lemma OneMoreShipped(sig: Signature, P: Program, vt: Types, fuel: nat, op: Op, es: seq<Code>, n: nat, uc: bool,
      s: State)
    requires 0 < n <= |es| && TypeOfKids(sig, P, vt, es).Some?
    requires var (r, s0) := Run(P, Shipped, fuel, es[0], uc, s);
      && Safe(sig, P, uc, r, TypeOf(sig, P, vt, es[0]).value) && Kept(sig, P, vt, s, s0)
      && (r.Ok? ==> OperandsTyped(sig, P, vt, fuel, op, es[1..], n - 1, uc, s0))
    ensures OperandsTyped(sig, P, vt, fuel, op, es, n, uc, s)
  {
    var (r, s0) := Run(P, Shipped, fuel, es[0], uc, s);
    if r.Ok? {
      var rs := Operands(P, Shipped, fuel, op, es[1..], n - 1, uc, s0).0;
      if rs.Values? { OneMoreTyped(sig, P, vt, es, n, r.v, rs.vs); }
    }
  }

  lemma OneMoreTyped(sig: Signature, P: Program, vt: Types, es: seq<Code>, n: nat, v: Value, vs: seq<Value>)
    requires 0 < n <= |es| && TypeOfKids(sig, P, vt, es).Some?
    requires HasType(sig, v, TypeOf(sig, P, vt, es[0]).value)
    requires HaveTypes(sig, vs, TypeOfKids(sig, P, vt, es[1..]).value[..n - 1])
    ensures HaveTypes(sig, [v] + vs, TypeOfKids(sig, P, vt, es).value[..n])
  {
    var t, ts := TypeOf(sig, P, vt, es[0]).value, TypeOfKids(sig, P, vt, es[1..]).value;
    assert TypeOfKids(sig, P, vt, es).value[..n] == [t] + ts[..n - 1];
  }

  lemma {:induction false} CasesShipped(sig: Signature, P: Program, vt: Types, fuel: nat, cases: seq<Case>, v: Value,
      t0: Type, uc: bool, s: State, t: Type)
    requires Accepted(sig, P, vt) && Typed(sig, P, vt, s) && BareNullaryCases(sig, cases)
      && OneTypeCases(sig, P, vt, cases)
    requires TypeOfCases(sig, P, vt, cases) == Some(t) && FreeVarsOfCases(cases) <= s.val.Keys && HasType(sig, v, t0)
    ensures var (r, s') := RunCases(P, Shipped, fuel, cases, v, uc, s);
      Safe(sig, P, uc, r, t) && Kept(sig, P, vt, s, s')
    decreases fuel, cases, 0
  {
    if Selects(cases[0], v) {
      CaseShipped(sig, P, vt, fuel, cases[0], v, t0, uc, s, t);
    } else if |cases| > 1 {
      CasesShipped(sig, P, vt, fuel, cases[1..], v, t0, uc, s, t);
    } else {
      assert cases[1..] == [];
      assert RunCases(P, Shipped, fuel, [], v, uc, s) == (Failed(NoCase), s);
    }
  }

  lemma {:induction false} CaseShipped(sig: Signature, P: Program, vt: Types, fuel: nat, k: Case, v: Value, t0: Type,
                                       uc: bool, s: State, t: Type)
    requires Accepted(sig, P, vt) && Typed(sig, P, vt, s) && BareNullaryCase(sig, k) && OneTypeCase(sig, P, vt, k)
    requires TypeOfCase(sig, P, vt, k) == Some(t) && FreeVarsOfCase(k) <= s.val.Keys && HasType(sig, v, t0)
      && Selects(k, v)
    ensures var (r, s') := RunCase(P, Shipped, fuel, k, v, uc, s); Safe(sig, P, uc, r, t) && Kept(sig, P, vt, s, s')
    decreases fuel, k, 0
  {
    match k
    case Default(body) => ShippedSafe(sig, P, vt, fuel, body, uc, s, t);
    case Case(c, xs, body) =>
      var ts := sig[c].args;
      DeclareNothing(vt, xs, ts);
      BindTyped(sig, vt, s.val, xs, v.args, ts);
      var inner := s.(val := Bind(s.val, xs, v.args));
      ShippedSafe(sig, P, vt, fuel, body, uc, inner, t);
      RestoreTyped(sig, vt, Run(P, Shipped, fuel, body, uc, inner).1.val, xs, s.val);
  }

  lemma {:induction false} CallShipped(sig: Signature, P: Program, vt: Types, fuel: nat, f: Name, vs: seq<Value>,
      uc: bool, s: State, t: Type)
    requires Accepted(sig, P, vt) && Typed(sig, P, vt, s)
    requires f in P.progs && P.progs[f].ret == t && HaveTypes(sig, vs, P.progs[f].types)
    ensures var (r, s') := CallProgram(P, Shipped, fuel, f, vs, uc, s);
      Safe(sig, P, uc, r, t) && Kept(sig, P, vt, s, s')
    decreases fuel
  {
    var pr := P.progs[f];
    assert AcceptedBody(sig, P, vt, f);
    BindTyped(sig, vt, s.val, pr.params, vs, pr.types);
    assert pr.params[..|vs|] == pr.params && vs[..|vs|] == vs;
    if (pr.isFunction || !uc) && !(pr.isFunction && KeyOf(P, f, vs, s.cache) in s.cache) {
      MissUnfolds(P, Shipped, fuel, f, vs, uc, s);
      var inner := s.(val := Bind(s.val, pr.params, vs));
      ShippedSafe(sig, P, vt, fuel, pr.body, pr.isFunction, inner, t);
      RestoreTyped(sig, vt, Run(P, Shipped, fuel, pr.body, pr.isFunction, inner).1.val, pr.params, s.val);
    }
  }

  /** A run of a whole piece of code, functions included. */
  lemma AcceptedCodeIsSafe(sig: Signature, P: Program, vt: Types, fuel: nat, e: Code, t: Type)
    requires DataSignature(sig) && CheckedProgram(sig, P) && OneTypePerName(sig, P, vt)
    requires BareNullary(sig, e) && OneType(sig, P, vt, e) && TypeOf(sig, P, map[], e) == Some(t)
    ensures Safe(sig, P, false, Run(P, Shipped, fuel, e, false, State(map[], {}, map[])).0, t)
  {
    CheckedIsAccepted(sig, P, vt);
    TypedIsClosed(sig, P, map[], e);
    TypedAmongAll(sig, P, map[], vt, e);
    ShippedSafe(sig, P, vt, fuel, e, false, State(map[], {}, map[]), t);
  }
}
