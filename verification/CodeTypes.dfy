/** The type checker `check_code` for side-condition code over simple types, and
    type safety of the interpreter. */
module CodeTypes {
  import opened Wrappers
  import opened Code
  import opened Interp
  import opened Cells
  import opened Lexical

  datatype CtorType = CtorType(args: seq<Type>, ret: Type)

  /** The declared constants; none of them inhabits a number type. */
  type Signature = map<Name, CtorType>

  predicate DataSignature(sig: Signature) { forall c :: c in sig ==> sig[c].ret.Data? }

  type Context = map<Name, Type>

  predicate Numeric(t: Type) { t.Mpz? || t.Mpq? }

  function Declare(ctx: Context, xs: seq<Name>, ts: seq<Type>): Context
    requires |xs| == |ts|
    decreases |xs|
  {
    if xs == [] then ctx else Declare(ctx[xs[0] := ts[0]], xs[1..], ts[1..])
  }

  // ----- the checker -----

  /** The type of a node whose children have the types `ts`. */
  function TypeOfOp(sig: Signature, P: Program, op: Op, ts: seq<Type>): Option<Type>
    requires |ts| == KidCount(op, |ts|)
  {
    match op
    case Fail(t) => Some(t)
    case Do => Some(ts[1])
    case Add => if Numeric(ts[0]) && ts[0] == ts[1] then Some(ts[0]) else None
    case Mul => if Numeric(ts[0]) && ts[0] == ts[1] then Some(ts[0]) else None
    case Div => if Numeric(ts[0]) && ts[0] == ts[1] then Some(ts[0]) else None
    case Neg => if Numeric(ts[0]) then Some(ts[0]) else None
    case MpzToMpq => if ts[0].Mpz? then Some(Mpq) else None
    case IfNeg => if Numeric(ts[0]) && ts[1] == ts[2] then Some(ts[1]) else None
    case IfZero => if Numeric(ts[0]) && ts[1] == ts[2] then Some(ts[1]) else None
    case MarkVar(_) => if ts[0].Data? then Some(ts[0]) else None
    case IfMarked(_) => if ts[0].Data? && ts[1] == ts[2] then Some(ts[1]) else None
    case Compare => if ts[0].Data? && ts[1].Data? && ts[2] == ts[3] then Some(ts[2]) else None
    case IfEqual => if ts[0] == ts[1] && ts[2] == ts[3] then Some(ts[2]) else None
    case Construct(c) => if c in sig && sig[c].args == ts then Some(sig[c].ret) else None
    case Call(f) => if f in P.progs && P.progs[f].types == ts then Some(P.progs[f].ret) else None
  }

  function TypeOf(sig: Signature, P: Program, ctx: Context, e: Code): Option<Type>
    decreases e, 1
  {
    match e
    case Lit(VInt(_)) => Some(Mpz)
    case Lit(VRat(_)) => Some(Mpq)
    case Lit(VCon(c, args)) => if args == [] && c in sig && sig[c].args == [] then Some(sig[c].ret) else None
    case Var(x) => if x in ctx then Some(ctx[x]) else None
    case Let(x, rhs, body) => var t :- TypeOf(sig, P, ctx, rhs); TypeOf(sig, P, ctx[x := t], body)
    case Match(scrut, cases) =>
      var _ :- TypeOf(sig, P, ctx, scrut);
      TypeOfCases(sig, P, ctx, cases)
    case Node(op, kids) =>
      if |kids| != KidCount(op, |kids|) then None
      else var ts :- TypeOfKids(sig, P, ctx, kids); TypeOfOp(sig, P, op, ts)
  }

  function TypeOfKids(sig: Signature, P: Program, ctx: Context, es: seq<Code>): (ts: Option<seq<Type>>)
    ensures ts.Some? ==> |ts.value| == |es|
    decreases es, 0
  {
    if es == [] then Some([])
    else
      var t :- TypeOf(sig, P, ctx, es[0]);
      var ts :- TypeOfKids(sig, P, ctx, es[1..]);
      Some([t] + ts)
  }

  /** All cases have the type of the first; a match needs a case. */
  function TypeOfCases(sig: Signature, P: Program, ctx: Context, cases: seq<Case>): Option<Type>
    decreases cases, 0
  {
    if cases == [] then None
    else
      var t :- TypeOfCase(sig, P, ctx, cases[0]);
      if |cases| == 1 then Some(t)
      else var t' :- TypeOfCases(sig, P, ctx, cases[1..]); if t == t' then Some(t) else None
  }

  /** A bare pattern is not looked up; an applied one must give every argument. */
  function TypeOfCase(sig: Signature, P: Program, ctx: Context, k: Case): Option<Type>
    decreases k, 0
  {
    match k
    case Default(body) => TypeOf(sig, P, ctx, body)
    case Case(c, xs, body) =>
      if xs == [] then TypeOf(sig, P, ctx, body)
      else if c in sig && |sig[c].args| == |xs| then TypeOf(sig, P, Declare(ctx, xs, sig[c].args), body)
      else None
  }

  /** What the checker leaves to the author of a signature: a bare pattern names
      a constructor without arguments. */
  predicate BareNullary(sig: Signature, e: Code) {
    match e
    case Lit(_) => true
    case Var(_) => true
    case Let(_, rhs, body) => BareNullary(sig, rhs) && BareNullary(sig, body)
    case Match(s, cases) => BareNullary(sig, s) && BareNullaryCases(sig, cases)
    case Node(_, kids) => BareNullaryKids(sig, kids)
  }

  predicate BareNullaryKids(sig: Signature, es: seq<Code>) {
    es == [] || (BareNullary(sig, es[0]) && BareNullaryKids(sig, es[1..]))
  }

  predicate BareNullaryCases(sig: Signature, cases: seq<Case>) {
    cases == [] || (BareNullaryCase(sig, cases[0]) && BareNullaryCases(sig, cases[1..]))
  }

  predicate BareNullaryCase(sig: Signature, k: Case) {
    (k.Case? && k.vars == [] ==> k.c in sig && sig[k.c].args == []) && BareNullary(sig, k.body)
  }

  /** Every program was accepted when it was declared. */
  ghost predicate CheckedProgram(sig: Signature, P: Program) {
    forall f :: f in P.progs ==>
      var pr := P.progs[f];
      |pr.params| == |pr.types| && BareNullary(sig, pr.body)
      && TypeOf(sig, P, Declare(map[], pr.params, pr.types), pr.body) == Some(pr.ret)
  }

  // ----- typed values -----

  predicate HasType(sig: Signature, v: Value, t: Type) {
    match v
    case VInt(_) => t.Mpz?
    case VRat(_) => t.Mpq?
    case VCon(c, args) =>
      c in sig && t == sig[c].ret && |args| == |sig[c].args|
      && forall i :: 0 <= i < |args| ==> HasType(sig, args[i], sig[c].args[i])
  }

  predicate HaveTypes(sig: Signature, vs: seq<Value>, ts: seq<Type>) {
    |vs| == |ts| && forall i :: 0 <= i < |vs| ==> HasType(sig, vs[i], ts[i])
  }

  ghost predicate EnvTyped(sig: Signature, env: Store, ctx: Context) {
    forall x :: x in ctx ==> x in env && HasType(sig, env[x], ctx[x])
  }

  /** The ways a checked program can still fail. */
  predicate Allowed(why: Reason) {
    why.FailStatement? || why.DivByZero? || why.NotASymbol? || why.NoCase? || why.MarksInFunction?
      || why.ProgramInFunction?
  }

  /** Outside functions, in a program without any. */
  ghost predicate Quiet(P: Program, uc: bool) { !uc && NoFunctions(P) }

  ghost predicate MayFail(P: Program, uc: bool, why: Reason) {
    Allowed(why) && (Quiet(P, uc) ==> !why.MarksInFunction? && !why.ProgramInFunction?)
  }

  ghost predicate Safe(sig: Signature, P: Program, uc: bool, r: Outcome, t: Type) {
    (r.Ok? ==> HasType(sig, r.v, t)) && (r.Failed? ==> MayFail(P, uc, r.why))
  }

  lemma {:induction false} DeclareTyped(sig: Signature, env: Store, ctx: Context, xs: seq<Name>, vs: seq<Value>,
      ts: seq<Type>)
    requires EnvTyped(sig, env, ctx) && HaveTypes(sig, vs, ts) && |xs| == |ts|
    ensures EnvTyped(sig, Bind(env, xs, vs), Declare(ctx, xs, ts))
    decreases |xs|
  {
    if xs != [] {
      DeclareTyped(sig, env[xs[0] := vs[0]], ctx[xs[0] := ts[0]], xs[1..], vs[1..], ts[1..]);
    }
  }

  // ----- type safety -----

  /** What an operator does when its strict operands have the right types. */
  ghost predicate StepSafe(sig: Signature, P: Program, next: Next, ts: seq<Type>, vs: seq<Value>, t: Type) {
    match next
    case Return(v, _) => HasType(sig, v, t)
    case Stop(why) => Allowed(why) && !why.MarksInFunction? && !why.ProgramInFunction?
    case Goto(i) => i < |ts| && ts[i] == t
    case Enter(f) => f in P.progs && P.progs[f].ret == t && HaveTypes(sig, vs, P.progs[f].types)
  }

  lemma ArithTyped(sig: Signature, op: Op, a: Value, b: Value, marks: set<(Name, nat)>, t: Type)
    requires DataSignature(sig) && (op.Add? || op.Mul? || op.Div?)
    requires Numeric(t) && HasType(sig, a, t) && HasType(sig, b, t)
    ensures var next := Arith(op, a, b, marks);
            (next.Return? && HasType(sig, next.v, t)) || next == Stop(DivByZero)
  {
  }

  lemma StepTyped(sig: Signature, P: Program, op: Op, vs: seq<Value>, ts: seq<Type>, marks: set<(Name, nat)>, t: Type)
    requires DataSignature(sig) && |ts| == KidCount(op, |ts|)
    requires TypeOfOp(sig, P, op, ts) == Some(t)
    requires HaveTypes(sig, vs, ts[..StrictKids(op, |ts|)])
    requires NeedsSymbols(op) ==> AllSymbols(vs)
    ensures StepSafe(sig, P, Step(P, op, vs, |ts|, marks), ts, vs, t)
  {
    if op.Construct? || op.Call? { assert ts[..|ts|] == ts; }
    if op.Add? || op.Mul? || op.Div? { ArithTyped(sig, op, vs[0], vs[1], marks, t); }
    if op.Neg? || op.IfNeg? || op.IfZero? || op.MpzToMpq? { assert HasType(sig, vs[0], ts[0]); }
  }

  lemma {:induction false} KidTyped(sig: Signature, P: Program, ctx: Context, es: seq<Code>, i: nat)
    requires TypeOfKids(sig, P, ctx, es).Some? && BareNullaryKids(sig, es) && i < |es|
    ensures TypeOf(sig, P, ctx, es[i]) == Some(TypeOfKids(sig, P, ctx, es).value[i]) && BareNullary(sig, es[i])
  {
    if i > 0 { KidTyped(sig, P, ctx, es[1..], i - 1); }
  }

  /** A checked piece of code, run with any fuel, yields a value of its type or
      fails in one of the allowed ways; in particular no arithmetic exit, arity
      error or unbound variable is reached. */
  lemma {:induction false} TypeSafe(sig: Signature, P: Program, fuel: nat, e: Code, uc: bool, s: State, ctx: Context,
      t: Type)
    requires DataSignature(sig) && CheckedProgram(sig, P) && BareNullary(sig, e)
    requires TypeOf(sig, P, ctx, e) == Some(t) && EnvTyped(sig, s.val, ctx)
    ensures Safe(sig, P, uc, Run(P, Plain, fuel, e, uc, s).0, t)
    ensures Run(P, Plain, fuel, e, uc, s).1.val == s.val
    decreases fuel, e, 1
  {
    match e
    case Lit(_) =>
    case Var(_) =>
    case Let(x, rhs, body) =>
      var t0 := TypeOf(sig, P, ctx, rhs).value;
      TypeSafe(sig, P, fuel, rhs, uc, s, ctx, t0);
      var (r0, s0) := Run(P, Plain, fuel, rhs, uc, s);
      if r0.Ok? { TypeSafe(sig, P, fuel, body, uc, s0.(val := s0.val[x := r0.v]), ctx[x := t0], t); }
    case Match(scrut, cases) =>
      var t0 := TypeOf(sig, P, ctx, scrut).value;
      TypeSafe(sig, P, fuel, scrut, uc, s, ctx, t0);
      var (r0, s0) := Run(P, Plain, fuel, scrut, uc, s);
      if r0.Ok? { CasesSafe(sig, P, fuel, cases, r0.v, t0, uc, s0, ctx, t); }
    case Node(op, kids) =>
      if !(op.IfMarked? && uc) {
        var ts := TypeOfKids(sig, P, ctx, kids).value;
        var n := StrictKids(op, |kids|);
        OperandsSafe(sig, P, fuel, op, kids, n, uc, s, ctx);
        var (rs, s0) := Operands(P, Plain, fuel, op, kids, n, uc, s);
        if rs.Values? {
          StepTyped(sig, P, op, rs.vs, ts, s0.marks, t);
          ActSafe(sig, P, fuel, Step(P, op, rs.vs, |kids|, s0.marks), kids, rs.vs, uc, s0, ctx, t);
        }
      }
  }

  lemma {:induction false} ActSafe(sig: Signature, P: Program, fuel: nat, next: Next, kids: seq<Code>, vs: seq<Value>,
      uc: bool, s: State, ctx: Context, t: Type)
    requires DataSignature(sig) && CheckedProgram(sig, P) && BareNullaryKids(sig, kids)
    requires TypeOfKids(sig, P, ctx, kids).Some? && EnvTyped(sig, s.val, ctx)
    requires StepSafe(sig, P, next, TypeOfKids(sig, P, ctx, kids).value, vs, t)
    ensures Safe(sig, P, uc, Act(P, Plain, fuel, next, kids, vs, uc, s).0, t)
    ensures Act(P, Plain, fuel, next, kids, vs, uc, s).1.val == s.val
    decreases fuel, kids, 0
  {
    if next.Goto? {
      KidTyped(sig, P, ctx, kids, next.i);
      TypeSafe(sig, P, fuel, kids[next.i], uc, s, ctx, t);
    } else if next.Enter? && fuel > 0 {
      CallSafe(sig, P, fuel - 1, next.f, vs, uc, s, t);
    }
  }

  lemma {:induction false} OperandsSafe(sig: Signature, P: Program, fuel: nat, op: Op, es: seq<Code>, n: nat, uc: bool,
                                        s: State, ctx: Context)
    requires DataSignature(sig) && CheckedProgram(sig, P) && BareNullaryKids(sig, es) && n <= |es|
    requires TypeOfKids(sig, P, ctx, es).Some? && EnvTyped(sig, s.val, ctx)
    ensures var rs := Operands(P, Plain, fuel, op, es, n, uc, s);
            rs.1.val == s.val
            && (rs.0.Values? ==> HaveTypes(sig, rs.0.vs, TypeOfKids(sig, P, ctx, es).value[..n]))
            && (rs.0.Stopped? && rs.0.r.Failed? ==> MayFail(P, uc, rs.0.r.why))
    decreases fuel, es, 0
  {
    if n > 0 {
      var t := TypeOf(sig, P, ctx, es[0]).value;
      TypeSafe(sig, P, fuel, es[0], uc, s, ctx, t);
      var (r, s0) := Run(P, Plain, fuel, es[0], uc, s);
      if r.Ok? {
        OperandsSafe(sig, P, fuel, op, es[1..], n - 1, uc, s0, ctx);
        assert TypeOfKids(sig, P, ctx, es).value[..n] == [t] + TypeOfKids(sig, P, ctx, es[1..]).value[..n - 1];
      }
    }
  }

  lemma {:induction false} CasesSafe(sig: Signature, P: Program, fuel: nat, cases: seq<Case>, v: Value, t0: Type,
      uc: bool, s: State, ctx: Context, t: Type)
    requires DataSignature(sig) && CheckedProgram(sig, P) && BareNullaryCases(sig, cases)
    requires TypeOfCases(sig, P, ctx, cases) == Some(t) && EnvTyped(sig, s.val, ctx) && HasType(sig, v, t0)
    ensures Safe(sig, P, uc, RunCases(P, Plain, fuel, cases, v, uc, s).0, t)
    ensures RunCases(P, Plain, fuel, cases, v, uc, s).1.val == s.val
    decreases fuel, cases, 0
  {
    if Selects(cases[0], v) {
      CaseSafe(sig, P, fuel, cases[0], v, t0, uc, s, ctx, t);
    } else if |cases| > 1 {
      CasesSafe(sig, P, fuel, cases[1..], v, t0, uc, s, ctx, t);
    } else {
      assert cases[1..] == [];
      assert RunCases(P, Plain, fuel, [], v, uc, s) == (Failed(NoCase), s);
    }
  }

  lemma {:induction false} CaseSafe(sig: Signature, P: Program, fuel: nat, k: Case, v: Value, t0: Type, uc: bool,
                                    s: State, ctx: Context, t: Type)
    requires DataSignature(sig) && CheckedProgram(sig, P) && BareNullaryCase(sig, k) && Selects(k, v)
    requires TypeOfCase(sig, P, ctx, k) == Some(t) && EnvTyped(sig, s.val, ctx) && HasType(sig, v, t0)
    ensures Safe(sig, P, uc, RunCase(P, Plain, fuel, k, v, uc, s).0, t)
    ensures RunCase(P, Plain, fuel, k, v, uc, s).1.val == s.val
    decreases fuel, k, 0
  {
    match k
    case Default(body) => TypeSafe(sig, P, fuel, body, uc, s, ctx, t);
    case Case(c, xs, body) =>
      var ts := sig[c].args;
      DeclareTyped(sig, s.val, ctx, xs, v.args, ts);
      TypeSafe(sig, P, fuel, body, uc, s.(val := Bind(s.val, xs, v.args)), Declare(ctx, xs, ts), t);
  }

  lemma {:induction false} CallSafe(sig: Signature, P: Program, fuel: nat, f: Name, vs: seq<Value>, uc: bool, s: State,
      t: Type)
    requires DataSignature(sig) && CheckedProgram(sig, P)
    requires f in P.progs && P.progs[f].ret == t && HaveTypes(sig, vs, P.progs[f].types)
    ensures Safe(sig, P, uc, CallProgram(P, Plain, fuel, f, vs, uc, s).0, t)
    ensures CallProgram(P, Plain, fuel, f, vs, uc, s).1.val == s.val
    decreases fuel
  {
    var pr := P.progs[f];
    DeclareTyped(sig, map[], map[], pr.params, vs, pr.types);
    TypeSafe(sig, P, fuel, pr.body, pr.isFunction, s.(val := Bind(map[], pr.params, vs)),
             Declare(map[], pr.params, pr.types), t);
  }

  // ----- accepted code is closed -----

  /** The checker accepts no variable that is not in its context. */
  lemma {:induction false} TypedIsClosed(sig: Signature, P: Program, ctx: Context, e: Code)
    requires TypeOf(sig, P, ctx, e).Some?
    ensures FreeVars(e) <= ctx.Keys
    decreases e, 1
  {
    match e
    case Lit(_) =>
    case Var(_) =>
    case Let(x, rhs, body) =>
      TypedIsClosed(sig, P, ctx, rhs);
      TypedIsClosed(sig, P, ctx[x := TypeOf(sig, P, ctx, rhs).value], body);
    case Match(scrut, cases) =>
      TypedIsClosed(sig, P, ctx, scrut);
      TypedCasesClosed(sig, P, ctx, cases);
    case Node(_, kids) => TypedKidsClosed(sig, P, ctx, kids);
  }

  lemma {:induction false} TypedKidsClosed(sig: Signature, P: Program, ctx: Context, es: seq<Code>)
    requires TypeOfKids(sig, P, ctx, es).Some?
    ensures FreeVarsOfAll(es) <= ctx.Keys
    decreases es, 0
  {
    if es != [] {
      TypedIsClosed(sig, P, ctx, es[0]);
      TypedKidsClosed(sig, P, ctx, es[1..]);
    }
  }

  lemma {:induction false} TypedCasesClosed(sig: Signature, P: Program, ctx: Context, cases: seq<Case>)
    requires TypeOfCases(sig, P, ctx, cases).Some?
    ensures FreeVarsOfCases(cases) <= ctx.Keys
    decreases cases, 0
  {
    TypedCaseClosed(sig, P, ctx, cases[0]);
    if |cases| > 1 {
      TypedCasesClosed(sig, P, ctx, cases[1..]);
    } else {
      assert cases[1..] == [];
    }
  }

  lemma {:induction false} TypedCaseClosed(sig: Signature, P: Program, ctx: Context, k: Case)
    requires TypeOfCase(sig, P, ctx, k).Some?
    ensures FreeVarsOfCase(k) <= ctx.Keys
    decreases k, 0
  {
    match k
    case Default(body) => TypedIsClosed(sig, P, ctx, body);
    case Case(c, xs, body) =>
      if xs == [] {
        TypedIsClosed(sig, P, ctx, body);
      } else {
        DeclareKeys(ctx, xs, sig[c].args);
        TypedIsClosed(sig, P, Declare(ctx, xs, sig[c].args), body);
      }
  }

  lemma {:induction false} DeclareKeys(ctx: Context, xs: seq<Name>, ts: seq<Type>)
    requires |xs| == |ts|
    ensures Declare(ctx, xs, ts).Keys == ctx.Keys + Elements(xs)
    decreases |xs|
  {
    if xs != [] {
      DeclareKeys(ctx[xs[0] := ts[0]], xs[1..], ts[1..]);
      ElementsSplit(xs);
    }
  }

  lemma CheckedIsClosed(sig: Signature, P: Program)
    requires CheckedProgram(sig, P)
    ensures ClosedProgram(P)
  {
    forall f | f in P.progs ensures FreeVars(P.progs[f].body) <= Elements(P.progs[f].params) {
      var pr := P.progs[f];
      TypedIsClosed(sig, P, Declare(map[], pr.params, pr.types), pr.body);
      DeclareKeys(map[], pr.params, pr.types);
    }
  }

  /** The shipped interpreter on accepted code without `function`s: its result
      is the lexical one and has the checked type, and every cell is put back. */
  lemma AcceptedCodeRuns(sig: Signature, P: Program, fuel: nat, e: Code, s: State, t: Type)
    requires DataSignature(sig) && CheckedProgram(sig, P) && BareNullary(sig, e) && NoFunctions(P)
    requires TypeOf(sig, P, map[], e) == Some(t)
    ensures var (r, s1) := Run(P, Shipped, fuel, e, false, s);
            r == Run(P, Plain, fuel, e, false, s.(val := map[])).0
            && Safe(sig, P, false, r, t)
            && s1.val == s.val
  {
    CheckedIsClosed(sig, P);
    TypedIsClosed(sig, P, map[], e);
    var S := Setting(P, true, false, false, f => 0, n => {});
    NoFunctionsOrderly(S);
    CellsRefine(S, fuel, e, Outside, s, map[]);
    var (r, s1) := Run(P, Shipped, fuel, e, false, s);
    if Clean(r) { LeftNothing(S, Outside, s.val, s1.val); }
    TypeSafe(sig, P, fuel, e, false, s.(val := map[]), map[], t);
  }
}
