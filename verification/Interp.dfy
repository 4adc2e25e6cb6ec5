/** The interpreter `run_code_internal` of src/code.cpp, as a function on the
    whole machine state. A configuration chooses between the shipped behaviour
    and the simpler ones it is compared with. */
module Interp {
  import opened Code

  datatype Reason =
    | FailStatement | DivByZero | ArithMismatch | NotASymbol | NoCase | PatternArity | Unbound
    | CallArity | UnknownProgram | MarksInFunction | ProgramInFunction | Malformed

  datatype Outcome = Ok(v: Value) | Failed(why: Reason) | Diverged

  datatype Results = Values(vs: seq<Value>) | Stopped(r: Outcome)

  type Store = map<Name, Value>

  /** The `val` cells of the variables, the marks of the symbols, the cache. */
  datatype State = State(val: Store, marks: set<(Name, nat)>, cache: Cache)

  /** `lexical`: a callee sees its parameters only, and scopes end by dropping
      the environment. Otherwise variables are global cells that are saved and
      restored. `memo`: results of functions are cached. `restoreOnHit`: a cache
      hit puts the parameter cells back, which the shipped code does not do. */
  datatype Config = Config(lexical: bool, memo: bool, restoreOnHit: bool)

  const Shipped := Config(false, true, false)
  const Repaired := Config(false, true, true)
  const Plain := Config(true, false, true)
  const LexicalMemo := Config(true, true, true)

  // ----- scopes -----

  function Bind(val: Store, xs: seq<Name>, vs: seq<Value>): Store
    requires |xs| == |vs|
    decreases |xs|
  {
    if xs == [] then val else Bind(val[xs[0] := vs[0]], xs[1..], vs[1..])
  }

  function RestoreOne(val: Store, x: Name, before: Store): Store {
    if x in before then val[x := before[x]] else val - {x}
  }

  function Restore(val: Store, xs: seq<Name>, before: Store): Store
    decreases |xs|
  {
    if xs == [] then val else Restore(RestoreOne(val, xs[0], before), xs[1..], before)
  }

  function Leave(cfg: Config, val: Store, xs: seq<Name>, before: Store): Store {
    if cfg.lexical then before else Restore(val, xs, before)
  }

  // ----- one operator -----

  datatype Next =
    | Return(v: Value, marks: set<(Name, nat)>)
    | Stop(why: Reason)
    | Goto(i: nat)
    | Enter(f: Name)

  function FloorDiv(a: int, b: int): int
    requires b != 0
  {
    if b > 0 then a / b else (-a) / (-b)
  }

  function Toggle(m: set<(Name, nat)>, x: Name, i: nat): set<(Name, nat)> {
    if (x, i) in m then m - {(x, i)} else m + {(x, i)}
  }

  function Arith(op: Op, a: Value, b: Value, marks: set<(Name, nat)>): Next
    requires op.Add? || op.Mul? || op.Div?
  {
    match (a, b)
    case (VInt(m), VInt(n)) =>
      if op.Div? && n == 0 then Stop(DivByZero)
      else Return(VInt(if op.Add? then m + n else if op.Mul? then m * n else FloorDiv(m, n)), marks)
    case (VRat(p), VRat(q)) =>
      if op.Div? && q == 0.0 then Stop(DivByZero)
      else Return(VRat(if op.Add? then p + q else if op.Mul? then p * q else p / q), marks)
    case _ => Stop(ArithMismatch)
  }

  function SymbolOf(v: Value): Name
    requires IsSymbol(v)
  {
    v.c
  }

  /** What the operator does with its evaluated operands. */
  function Step(P: Program, op: Op, vs: seq<Value>, n: nat, marks: set<(Name, nat)>): (next: Next)
    requires n == KidCount(op, n) && |vs| == StrictKids(op, n)
    requires NeedsSymbols(op) ==> AllSymbols(vs)
    ensures next.Goto? ==> next.i < n
  {
    match op
    case Fail(_) => Stop(FailStatement)
    case Do => Goto(1)
    case Add => Arith(op, vs[0], vs[1], marks)
    case Mul => Arith(op, vs[0], vs[1], marks)
    case Div => Arith(op, vs[0], vs[1], marks)
    case Neg =>
      (match vs[0]
       case VInt(k) => Return(VInt(-k), marks)
       case VRat(q) => Return(VRat(-q), marks)
       case _ => Stop(ArithMismatch))
    case MpzToMpq => if vs[0].VInt? then Return(VRat(vs[0].n as real), marks) else Stop(ArithMismatch)
    case IfNeg =>
      (match vs[0]
       case VInt(k) => Goto(if k < 0 then 1 else 2)
       case VRat(q) => Goto(if q < 0.0 then 1 else 2)
       case _ => Stop(ArithMismatch))
    case IfZero =>
      (match vs[0]
       case VInt(k) => Goto(if k == 0 then 1 else 2)
       case VRat(q) => Goto(if q == 0.0 then 1 else 2)
       case _ => Stop(ArithMismatch))
    case MarkVar(i) => Return(vs[0], Toggle(marks, SymbolOf(vs[0]), i))
    case IfMarked(i) => Goto(if (SymbolOf(vs[0]), i) in marks then 1 else 2)
    case Compare => assert AllSymbols(vs[1..]); Goto(if P.before(SymbolOf(vs[0]), SymbolOf(vs[1])) then 2 else 3)
    case IfEqual => Goto(if vs[0] == vs[1] then 2 else 3)
    case Construct(c) => Return(VCon(c, vs), marks)
    case Call(f) => Enter(f)
  }

  // ----- the interpreter -----

  /** `fuel` bounds the depth of program calls; a run that needs more diverges. */
  function Run(P: Program, cfg: Config, fuel: nat, e: Code, useCache: bool, s: State): (Outcome, State)
    decreases fuel, e, 1
  {
    match e
    case Lit(v) => (Ok(v), s)
    case Var(x) => if x in s.val then (Ok(s.val[x]), s) else (Failed(Unbound), s)
    case Let(x, rhs, body) =>
      var (r0, s0) := Run(P, cfg, fuel, rhs, useCache, s);
      if !r0.Ok? then (r0, s0)
      else
        var (r1, s1) := Run(P, cfg, fuel, body, useCache, s0.(val := s0.val[x := r0.v]));
        (r1, s1.(val := Leave(cfg, s1.val, [x], s0.val)))
    case Match(scrut, cases) =>
      var (r0, s0) := Run(P, cfg, fuel, scrut, useCache, s);
      if !r0.Ok? then (r0, s0) else RunCases(P, cfg, fuel, cases, r0.v, useCache, s0)
    case Node(op, kids) =>
      if op.IfMarked? && useCache then (Failed(MarksInFunction), s)
      else if |kids| != KidCount(op, |kids|) then (Failed(Malformed), s)
      else
        var (rs, s0) := Operands(P, cfg, fuel, op, kids, StrictKids(op, |kids|), useCache, s);
        if rs.Stopped? then (rs.r, s0)
        else
          Act(P, cfg, fuel, Step(P, op, rs.vs, |kids|, s0.marks), kids, rs.vs, useCache, s0)
  }

  function Act(P: Program, cfg: Config, fuel: nat, next: Next, kids: seq<Code>, vs: seq<Value>, useCache: bool,
      s: State)
    : (Outcome, State)
    requires next.Goto? ==> next.i < |kids|
    decreases fuel, kids, 0
  {
    match next
    case Return(v, marks) => (Ok(v), s.(marks := marks))
    case Stop(why) => (Failed(why), s)
    case Goto(i) => Run(P, cfg, fuel, kids[i], useCache, s)
    case Enter(f) => if fuel == 0 then (Diverged, s) else CallProgram(P, cfg, fuel - 1, f, vs, useCache, s)
  }

  /** Evaluates the first n of `es`, left to right. */
  function Operands(P: Program, cfg: Config, fuel: nat, op: Op, es: seq<Code>, n: nat, useCache: bool, s: State)
    : (res: (Results, State))
    requires n <= |es|
    ensures res.0.Values? ==> |res.0.vs| == n
    ensures res.0.Values? && NeedsSymbols(op) ==> AllSymbols(res.0.vs)
    ensures res.0.Stopped? ==> !res.0.r.Ok?
    decreases fuel, es, 0
  {
    if n == 0 then (Values([]), s)
    else
      var (r, s0) := Run(P, cfg, fuel, es[0], useCache, s);
      if !r.Ok? then (Stopped(r), s0)
      else if NeedsSymbols(op) && !IsSymbol(r.v) then (Stopped(Failed(NotASymbol)), s0)
      else
        var (rs, s1) := Operands(P, cfg, fuel, op, es[1..], n - 1, useCache, s0);
        (if rs.Stopped? then rs else Values([r.v] + rs.vs), s1)
  }

  /** A bare or applied pattern matches on the head alone. */
  predicate Selects(k: Case, v: Value) { k.Default? || (v.VCon? && v.c == k.c) }

  function RunCases(P: Program, cfg: Config, fuel: nat, cases: seq<Case>, v: Value, useCache: bool, s: State)
    : (Outcome, State)
    decreases fuel, cases, 0
  {
    if cases == [] then (Failed(NoCase), s)
    else if Selects(cases[0], v) then RunCase(P, cfg, fuel, cases[0], v, useCache, s)
    else RunCases(P, cfg, fuel, cases[1..], v, useCache, s)
  }

  function RunCase(P: Program, cfg: Config, fuel: nat, k: Case, v: Value, useCache: bool, s: State)
    : (Outcome, State)
    requires Selects(k, v)
    decreases fuel, k, 0
  {
    match k
    case Default(body) => Run(P, cfg, fuel, body, useCache, s)
    case Case(_, xs, body) =>
      if |xs| != |v.args| then (Failed(PatternArity), s)
      else
        var (r, s0) := Run(P, cfg, fuel, body, useCache, s.(val := Bind(s.val, xs, v.args)));
        (r, s0.(val := Leave(cfg, s0.val, xs, s.val)))
  }

  function Min(a: nat, b: nat): nat { if a < b then a else b }

  /** The cells after the parameters have been assigned; an argument that is
      missing or in excess leaves only the common part assigned. */
  function Entered(val: Store, xs: seq<Name>, vs: seq<Value>): Store {
    var n := Min(|xs|, |vs|);
    Bind(val, xs[..n], vs[..n])
  }

  function CallProgram(P: Program, cfg: Config, fuel: nat, f: Name, vs: seq<Value>, useCache: bool, s: State)
    : (Outcome, State)
    decreases fuel
  {
    if f !in P.progs then (Failed(UnknownProgram), s)
    else
      var pr := P.progs[f];
      var key := KeyOf(P, f, vs, s.cache);
      var entered := s.(val := Entered(s.val, pr.params, vs));
      var abandoned := if cfg.lexical then s else entered;
      if |vs| != |pr.params| then (Failed(CallArity), abandoned)
      else if cfg.memo && pr.isFunction && key in s.cache then
        (Ok(s.cache[key]), if cfg.restoreOnHit then s else abandoned)
      else if !pr.isFunction && useCache then (Failed(ProgramInFunction), abandoned)
      else
        var inner := if cfg.lexical then s.(val := Bind(map[], pr.params, vs)) else entered;
        var (r, s0) := Run(P, cfg, fuel, pr.body, pr.isFunction, inner);
        var s1 := s0.(val := Leave(cfg, s0.val, pr.params, s.val));
        (r, if cfg.memo && pr.isFunction && r.Ok? then s1.(cache := s1.cache[key := r.v]) else s1)
  }
}
