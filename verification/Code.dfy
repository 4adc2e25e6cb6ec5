/** Side-condition code, as src/code.cpp reads it: a tree of operators over
    program variables, with values that contain no program variable. */
module Code {
  type Name = nat

  datatype Type = Mpz | Mpq | Data(d: Name)

  /** `VCon(c, [])` is a symbol: a nullary constructor or an LF variable. */
  datatype Value = VInt(n: int) | VRat(q: real) | VCon(c: Name, args: seq<Value>)

  predicate IsSymbol(v: Value) { v.VCon? && v.args == [] }

  predicate AllSymbols(vs: seq<Value>) { vs == [] || (IsSymbol(vs[0]) && AllSymbols(vs[1..])) }

  datatype Op =
    | Fail(t: Type)
    | Do
    | Add | Mul | Div | Neg | MpzToMpq
    | IfNeg | IfZero
    | MarkVar(i: nat) | IfMarked(i: nat)
    | Compare | IfEqual
    | Construct(c: Name)
    | Call(f: Name)

  datatype Code =
    | Lit(v: Value)
    | Var(x: Name)
    | Let(x: Name, rhs: Code, body: Code)
    | Match(scrut: Code, cases: seq<Case>)
    | Node(op: Op, kids: seq<Code>)

  /** A bare pattern has no variables. */
  datatype Case = Case(c: Name, vars: seq<Name>, body: Code) | Default(body: Code)

  /** A `program`, or a `function`, whose results are cached. */
  datatype Prog = Prog(params: seq<Name>, types: seq<Type>, ret: Type, body: Code, isFunction: bool)

  /** The node of the cache trie for a call: its arguments are told apart by
      their addresses, so equal arguments may lead to different nodes. */
  type Key = (Name, seq<Value>, nat)

  type Cache = map<Key, Value>

  /** `before` is the order of symbol addresses that `compare` uses, `address`
      says where the arguments of a call lie. */
  datatype Program = Program(
    progs: map<Name, Prog>, before: (Name, Name) -> bool, address: (Name, seq<Value>, Cache) -> nat)

  function KeyOf(P: Program, f: Name, vs: seq<Value>, cache: Cache): Key { (f, vs, P.address(f, vs, cache)) }

  // ----- shape of the operators -----

  function KidCount(op: Op, n: nat): nat {
    match op
    case Fail(_) => 0
    case Do => 2
    case Add => 2
    case Mul => 2
    case Div => 2
    case Neg => 1
    case MpzToMpq => 1
    case IfNeg => 3
    case IfZero => 3
    case MarkVar(_) => 1
    case IfMarked(_) => 3
    case Compare => 4
    case IfEqual => 4
    case Construct(_) => n
    case Call(_) => n
  }

  /** How many children are evaluated before the operator acts. */
  function StrictKids(op: Op, n: nat): (k: nat)
    ensures n == KidCount(op, n) ==> k <= n
  {
    match op
    case Fail(_) => 0
    case Do => 1
    case Neg => 1
    case MpzToMpq => 1
    case IfNeg => 1
    case IfZero => 1
    case MarkVar(_) => 1
    case IfMarked(_) => 1
    case Construct(_) => n
    case Call(_) => n
    case _ => 2
  }

  /** These operators give up as soon as an operand is not a symbol. */
  predicate NeedsSymbols(op: Op) { op.MarkVar? || op.IfMarked? || op.Compare? }

  // ----- names -----

  function FreeVars(e: Code): set<Name> {
    match e
    case Lit(_) => {}
    case Var(x) => {x}
    case Let(x, rhs, body) => FreeVars(rhs) + (FreeVars(body) - {x})
    case Match(s, cases) => FreeVars(s) + FreeVarsOfCases(cases)
    case Node(_, kids) => FreeVarsOfAll(kids)
  }

  function FreeVarsOfAll(es: seq<Code>): set<Name> {
    if es == [] then {} else FreeVars(es[0]) + FreeVarsOfAll(es[1..])
  }

  function FreeVarsOfCases(cases: seq<Case>): set<Name> {
    if cases == [] then {} else FreeVarsOfCase(cases[0]) + FreeVarsOfCases(cases[1..])
  }

  function FreeVarsOfCase(k: Case): set<Name> {
    match k
    case Case(_, xs, b) => FreeVars(b) - Elements(xs)
    case Default(b) => FreeVars(b)
  }

  /** All variables of a piece of code, bound ones included. */
  function Names(e: Code): set<Name> {
    match e
    case Lit(_) => {}
    case Var(x) => {x}
    case Let(x, rhs, body) => {x} + Names(rhs) + Names(body)
    case Match(s, cases) => Names(s) + NamesOfCases(cases)
    case Node(_, kids) => NamesOfAll(kids)
  }

  function NamesOfAll(es: seq<Code>): set<Name> { if es == [] then {} else Names(es[0]) + NamesOfAll(es[1..]) }

  function NamesOfCases(cases: seq<Case>): set<Name> {
    if cases == [] then {} else NamesOfCase(cases[0]) + NamesOfCases(cases[1..])
  }

  function NamesOfCase(k: Case): set<Name> {
    Names(k.body) + if k.Case? then Elements(k.vars) else {}
  }

  /** The variables that a piece of code binds. */
  function BoundIn(e: Code): set<Name> {
    match e
    case Lit(_) => {}
    case Var(_) => {}
    case Let(x, rhs, body) => {x} + BoundIn(rhs) + BoundIn(body)
    case Match(s, cases) => BoundIn(s) + BoundInCases(cases)
    case Node(_, kids) => BoundInAll(kids)
  }

  function BoundInAll(es: seq<Code>): set<Name> { if es == [] then {} else BoundIn(es[0]) + BoundInAll(es[1..]) }

  function BoundInCases(cases: seq<Case>): set<Name> {
    if cases == [] then {} else BoundInCase(cases[0]) + BoundInCases(cases[1..])
  }

  function BoundInCase(k: Case): set<Name> {
    BoundIn(k.body) + if k.Case? then Elements(k.vars) else {}
  }

  /** The programs called in a piece of code. */
  function Calls(e: Code): set<Name> {
    match e
    case Lit(_) => {}
    case Var(_) => {}
    case Let(_, rhs, body) => Calls(rhs) + Calls(body)
    case Match(s, cases) => Calls(s) + CallsOfCases(cases)
    case Node(op, kids) => (if op.Call? then {op.f} else {}) + CallsOfAll(kids)
  }

  function CallsOfAll(es: seq<Code>): set<Name> { if es == [] then {} else Calls(es[0]) + CallsOfAll(es[1..]) }

  function CallsOfCases(cases: seq<Case>): set<Name> {
    if cases == [] then {} else CallsOfCase(cases[0]) + CallsOfCases(cases[1..])
  }

  function CallsOfCase(k: Case): set<Name> { Calls(k.body) }

  function Elements(xs: seq<Name>): set<Name> { set x | x in xs }

  predicate Distinct(xs: seq<Name>) { forall i, j :: 0 <= i < j < |xs| ==> xs[i] != xs[j] }

  /** Every variable of a binder has a cell of its own. */
  predicate DistinctBinders(e: Code) {
    match e
    case Lit(_) => true
    case Var(_) => true
    case Let(_, rhs, body) => DistinctBinders(rhs) && DistinctBinders(body)
    case Match(s, cases) => DistinctBinders(s) && DistinctBindersOfCases(cases)
    case Node(_, kids) => DistinctBindersOfAll(kids)
  }

  predicate DistinctBindersOfAll(es: seq<Code>) {
    es == [] || (DistinctBinders(es[0]) && DistinctBindersOfAll(es[1..]))
  }

  predicate DistinctBindersOfCases(cases: seq<Case>) {
    cases == [] || (DistinctBindersOfCase(cases[0]) && DistinctBindersOfCases(cases[1..]))
  }

  predicate DistinctBindersOfCase(k: Case) {
    (k.Case? ==> Distinct(k.vars)) && DistinctBinders(k.body)
  }

  ghost predicate ParsedProgram(P: Program) {
    forall f :: f in P.progs ==> Distinct(P.progs[f].params) && DistinctBinders(P.progs[f].body)
  }

  /** A program sees its parameters and its own binders, nothing else. */
  ghost predicate ClosedProgram(P: Program) {
    forall f :: f in P.progs ==> FreeVars(P.progs[f].body) <= Elements(P.progs[f].params)
  }
}
