/** The multiplier of tests/tests/th_bv_bitblast.plf as code of the interpreter:
    running it is what `Blast` says of it, and so it multiplies. */
module BlastRun {
  import opened Wrappers
  import opened Code
  import opened Interp
  import opened Cells
  import opened Lexical
  import opened PureRun
  import F = Formula
  import N = Numbers
  import opened Blast
  import BlastProofs

  // ----- formulas and bit lists as values -----

  const BBLTN: Name := 0
  const BBLTC: Name := 1
  const TRUE: Name := 2
  const FALSE: Name := 3
  const NOT: Name := 4
  const AND: Name := 5
  const OR: Name := 6
  const IMPL: Name := 7
  const IFF: Name := 8
  const XOR: Name := 9
  const IFTE: Name := 10
  const BBLT: Name := 11
  const FORMULA: Name := 12

  /** `atom` are the values of atomic formulas. */
  function OfFormula(atom: F.Prop -> Value, f: F.Formula): Value {
    match f
    case True => VCon(TRUE, [])
    case False => VCon(FALSE, [])
    case Not(g) => VCon(NOT, [OfFormula(atom, g)])
    case And(g, h) => VCon(AND, [OfFormula(atom, g), OfFormula(atom, h)])
    case Or(g, h) => VCon(OR, [OfFormula(atom, g), OfFormula(atom, h)])
    case Impl(g, h) => VCon(IMPL, [OfFormula(atom, g), OfFormula(atom, h)])
    case Iff(g, h) => VCon(IFF, [OfFormula(atom, g), OfFormula(atom, h)])
    case Xor(g, h) => VCon(XOR, [OfFormula(atom, g), OfFormula(atom, h)])
    case Ifte(c, g, h) => VCon(IFTE, [OfFormula(atom, c), OfFormula(atom, g), OfFormula(atom, h)])
    case Atom(a) => atom(a)
  }

  function OfBits(atom: F.Prop -> Value, b: Bits): Value {
    if b.BbltN? then VCon(BBLTN, []) else VCon(BBLTC, [OfFormula(atom, b.bit), OfBits(atom, b.rest)])
  }

  function Maybe(atom: F.Prop -> Value, b: Option<Bits>): Option<Value> {
    if b.Some? then Some(OfBits(atom, b.value)) else None
  }

  // ----- the programs -----

  const MPZ_SUB: Name := 20
  const REVERSE_HELP: Name := 21
  const REVERSEB: Name := 22
  const TOP_K_BITS: Name := 23
  const K_BIT: Name := 24
  const AND_WITH_BIT: Name := 25
  const MULT_STEP_K_H: Name := 26
  const MULT_STEP: Name := 27
  const BVMUL: Name := 28

  const X: Name := 40
  const Y: Name := 41
  const ACC: Name := 42
  const XI: Name := 43
  const X1: Name := 44
  const A: Name := 45
  const B: Name := 46
  const K: Name := 47
  const AI: Name := 48
  const A1: Name := 49
  const BI: Name := 50
  const B1: Name := 51
  const BT: Name := 52
  const RES: Name := 53
  const CARRY: Name := 54
  const CARRY_OUT: Name := 55
  const CURR: Name := 56
  const NN: Name := 57
  const K1: Name := 58
  const AK: Name := 59
  const RES1: Name := 60
  const AR: Name := 61
  const BR: Name := 62

  function Num(n: int): Code { Lit(VInt(n)) }

  function Empty(): Code { Lit(VCon(BBLTN, [])) }

  function Two(c: Name, a: Code, b: Code): Code { Node(Construct(c), [a, b]) }

  function Minus(a: Code, b: Code): Code { Node(Call(MPZ_SUB), [a, b]) }

  function FailBits(): Code { Node(Fail(Data(BBLT)), []) }

  function FailFormula(): Code { Node(Fail(Data(FORMULA)), []) }

  /** `(match x (bbltn nil) ((bbltc hd tl) cons))` */
  function OnList(x: Name, nil: Code, hd: Name, tl: Name, cons: Code): Code {
    Match(Var(x), [Case(BBLTN, [], nil), Case(BBLTC, [hd, tl], cons)])
  }

  function SubCode(): Code { Node(Add, [Var(X), Node(Mul, [Num(-1), Var(Y)])]) }

  function ReverseHelpCode(): Code {
    OnList(X, Var(ACC), XI, X1, Node(Call(REVERSE_HELP), [Var(X1), Two(BBLTC, Var(XI), Var(ACC))]))
  }

  function ReverseCode(): Code { Node(Call(REVERSE_HELP), [Var(X), Empty()]) }

  function TopCode(): Code {
    Node(IfZero, [Var(K), Empty(), OnList(A, FailBits(), AI, A1,
      Two(BBLTC, Var(AI), Node(Call(TOP_K_BITS), [Var(A1), Minus(Var(K), Num(1))])))])
  }

  function KBitCode(): Code {
    Node(IfNeg, [Var(K), FailFormula(), OnList(A, FailFormula(), AI, A1,
      Node(IfZero, [Var(K), Var(AI), Node(Call(K_BIT), [Var(A1), Minus(Var(K), Num(1))])]))])
  }

  function AndWithBitCode(): Code {
    OnList(A, Empty(), AI, A1,
      Two(BBLTC, Two(AND, Var(BT), Var(AI)), Node(Call(AND_WITH_BIT), [Var(A1), Var(BT)])))
  }

  function CarryOutCode(): Code {
    Two(OR, Two(AND, Var(AI), Var(BI)), Two(AND, Two(XOR, Var(AI), Var(BI)), Var(CARRY)))
  }

  function CurrCode(): Code { Two(XOR, Two(XOR, Var(AI), Var(BI)), Var(CARRY)) }

  function AddHere(): Code {
    Let(CARRY_OUT, CarryOutCode(), Let(CURR, CurrCode(),
      Node(Call(MULT_STEP_K_H),
        [Var(A1), Var(B1), Two(BBLTC, Var(CURR), Var(RES)), Var(CARRY_OUT), Minus(Var(K), Num(1))])))
  }

  function PassOn(): Code {
    Node(Call(MULT_STEP_K_H), [Var(A1), Var(B), Two(BBLTC, Var(AI), Var(RES)), Var(CARRY), Minus(Var(K), Num(1))])
  }

  function StepHCode(): Code {
    OnList(A, Match(Var(B), [Case(BBLTN, [], Var(RES)), Default(FailBits())]), AI, A1,
      OnList(B, FailBits(), BI, B1, Node(IfNeg, [Minus(Var(K), Num(1)), AddHere(), PassOn()])))
  }

  function AddRow(): Code { Node(Call(MULT_STEP_K_H), [Var(RES), Var(B1), Empty(), Lit(VCon(FALSE, [])), Var(K)]) }

  function NextRow(): Code {
    Let(RES1, AddRow(), Node(Call(MULT_STEP),
      [Var(A), Var(B), Node(Call(REVERSEB), [Var(RES1)]), Var(NN), Node(Add, [Var(K), Num(1)])]))
  }

  function StepCode(): Code {
    Let(K1, Minus(Var(NN), Var(K)),
    Let(AK, Node(Call(TOP_K_BITS), [Var(A), Var(K1)]),
    Let(B1, Node(Call(AND_WITH_BIT), [Var(AK), Node(Call(K_BIT), [Var(B), Var(K)])]),
    Node(IfZero, [Minus(Var(K1), Num(1)), AddRow(), NextRow()]))))
  }

  function MulCode(): Code {
    Let(AR, Node(Call(REVERSEB), [Var(A)]),
    Let(BR, Node(Call(REVERSEB), [Var(B)]),
    Let(RES, Node(Call(AND_WITH_BIT), [Var(AR), Node(Call(K_BIT), [Var(BR), Num(0)])]),
    Node(IfZero, [Minus(Var(NN), Num(1)), Var(RES),
      Node(Call(MULT_STEP), [Var(AR), Var(BR), Var(RES), Var(NN), Num(1)])]))))
  }

  predicate Loaded(P: Program) {
    && Defines(P, MPZ_SUB, [X, Y], SubCode())
    && Defines(P, REVERSE_HELP, [X, ACC], ReverseHelpCode())
    && Defines(P, REVERSEB, [X], ReverseCode())
    && Defines(P, TOP_K_BITS, [A, K], TopCode())
    && Defines(P, K_BIT, [A, K], KBitCode())
    && Defines(P, AND_WITH_BIT, [A, BT], AndWithBitCode())
    && Defines(P, MULT_STEP_K_H, [A, B, RES, CARRY, K], StepHCode())
    && Defines(P, MULT_STEP, [A, B, RES, NN, K], StepCode())
    && Defines(P, BVMUL, [A, B, NN], MulCode())
  }

  // ----- pieces of code -----

  lemma GivesTwo(P: Program, k: nat, c: Name, a: Code, b: Code, env: Store, v: Value, w: Value)
    requires Gives(P, k, a, env, Some(v)) && Gives(P, k, b, env, Some(w))
    ensures Gives(P, k, Two(c, a, b), env, Some(VCon(c, [v, w])))
  {
    GivesConstruct(P, k, c, [a, b], [v, w], env);
  }

  lemma GivesCall2(P: Program, k: nat, f: Name, a: Code, b: Code, env: Store, v: Value, w: Value, o: Option<Value>)
    requires Gives(P, k, a, env, Some(v)) && Gives(P, k, b, env, Some(w)) && k > 0 && CallGives(P, k - 1, f, [v, w], o)
    ensures Gives(P, k, Node(Call(f), [a, b]), env, o)
  {
    GivesCall(P, k, f, [a, b], [v, w], env, o);
  }

  lemma GivesMinus(P: Program, k: nat, a: Code, b: Code, env: Store, m: int, n: int)
    requires Loaded(P) && k > 0 && Gives(P, k, a, env, Some(VInt(m))) && Gives(P, k, b, env, Some(VInt(n)))
    ensures Gives(P, k, Minus(a, b), env, Some(VInt(m - n)))
  {
    var vs := [VInt(m), VInt(n)];
    var inner := Bind(map[], [X, Y], vs);
    if Holds(inner, [X, Y], vs) {
      assert [X, Y][0] in inner && [X, Y][1] in inner;
      GivesVar(P, k - 1, X, inner);
      GivesVar(P, k - 1, Y, inner);
      GivesLit(P, k - 1, VInt(-1), inner);
      GivesArith(P, k - 1, Mul, Num(-1), Var(Y), inner, -1, n);
      GivesArith(P, k - 1, Add, Var(X), Node(Mul, [Num(-1), Var(Y)]), inner, m, -1 * n);
    }
    RunsBody(P, k - 1, MPZ_SUB, [X, Y], SubCode(), vs, inner, Some(VInt(m - n)));
    GivesCall2(P, k, MPZ_SUB, a, b, env, VInt(m), VInt(n), Some(VInt(m - n)));
  }

  lemma LessOne(P: Program, k: nat, env: Store, n: int)
    requires Loaded(P) && k > 0 && K in env && env[K] == VInt(n)
    ensures Gives(P, k, Minus(Var(K), Num(1)), env, Some(VInt(n - 1)))
  {
    GivesVar(P, k, K, env);
    GivesLit(P, k, VInt(1), env);
    GivesMinus(P, k, Var(K), Num(1), env, n, 1);
  }

  /** The environment below the pattern of a list. */
  function Taken(atom: F.Prop -> Value, env: Store, hd: Name, tl: Name, b: Bits): Store
    requires b.BbltC?
  {
    env[hd := OfFormula(atom, b.bit)][tl := OfBits(atom, b.rest)]
  }

  lemma GivesOnList(P: Program, k: nat, atom: F.Prop -> Value, x: Name, nil: Code, hd: Name, tl: Name, cons: Code,
      env: Store, b: Bits, o: Option<Value>)
    requires x in env && env[x] == OfBits(atom, b)
    requires b.BbltN? ==> Gives(P, k, nil, env, o)
    requires b.BbltC? ==> Gives(P, k, cons, Taken(atom, env, hd, tl, b), o)
    ensures Gives(P, k, OnList(x, nil, hd, tl, cons), env, o)
  {
    var first, second := Case(BBLTN, [], nil), Case(BBLTC, [hd, tl], cons);
    if b.BbltN? {
      assert Bind(env, [], []) == env;
    } else {
      assert [hd, tl][1..] == [tl] && env[x].args[1..] == [env[x].args[1]];
      assert Bind(env[hd := env[x].args[0]], [tl], [env[x].args[1]]) == Taken(atom, env, hd, tl, b);
    }
    GivesMatch(P, k, x, first, second, env, o);
  }

  // ----- reversing -----

  lemma {:induction false} ReverseHelpRuns(P: Program, k: nat, atom: F.Prop -> Value, x: Bits, acc: Bits)
    requires Loaded(P) && Len(x) <= k
    ensures CallGives(P, k, REVERSE_HELP, [OfBits(atom, x), OfBits(atom, acc)], Some(OfBits(atom, ReverseHelp(x, acc))))
    decreases x
  {
    var xs, vs, o := [X, ACC], [OfBits(atom, x), OfBits(atom, acc)], Some(OfBits(atom, ReverseHelp(x, acc)));
    var env := Bind(map[], xs, vs);
    if Holds(env, xs, vs) {
      assert xs[0] in env && xs[1] in env;
      var next := Node(Call(REVERSE_HELP), [Var(X1), Two(BBLTC, Var(XI), Var(ACC))]);
      if x.BbltN? {
        GivesVar(P, k, ACC, env);
      } else {
        var inner := Taken(atom, env, XI, X1, x);
        var acc' := BbltC(x.bit, acc);
        GivesVar(P, k, XI, inner);
        GivesVar(P, k, X1, inner);
        GivesVar(P, k, ACC, inner);
        GivesTwo(P, k, BBLTC, Var(XI), Var(ACC), inner, OfFormula(atom, x.bit), OfBits(atom, acc));
        ReverseHelpRuns(P, k - 1, atom, x.rest, acc');
        GivesCall2(P, k, REVERSE_HELP, Var(X1), Two(BBLTC, Var(XI), Var(ACC)), inner, OfBits(atom, x.rest),
          OfBits(atom, acc'), o);
      }
      GivesOnList(P, k, atom, X, Var(ACC), XI, X1, next, env, x, o);
    }
    RunsBody(P, k, REVERSE_HELP, xs, ReverseHelpCode(), vs, env, o);
  }

  lemma ReverseRuns(P: Program, k: nat, atom: F.Prop -> Value, x: Bits)
    requires Loaded(P) && Len(x) < k
    ensures CallGives(P, k, REVERSEB, [OfBits(atom, x)], Some(OfBits(atom, ReverseB(x))))
  {
    var xs, vs, o := [X], [OfBits(atom, x)], Some(OfBits(atom, ReverseB(x)));
    var env := Bind(map[], xs, vs);
    if Holds(env, xs, vs) {
      assert xs[0] in env;
      GivesVar(P, k, X, env);
      GivesLit(P, k, VCon(BBLTN, []), env);
      ReverseHelpRuns(P, k - 1, atom, x, BbltN);
      GivesCall2(P, k, REVERSE_HELP, Var(X), Empty(), env, vs[0], VCon(BBLTN, []), o);
    }
    RunsBody(P, k, REVERSEB, xs, ReverseCode(), vs, env, o);
  }

  // ----- taking bits -----

  lemma {:induction false} TopRuns(P: Program, k: nat, atom: F.Prop -> Value, a: Bits, n: int)
    requires Loaded(P) && Len(a) < k
    ensures CallGives(P, k, TOP_K_BITS, [OfBits(atom, a), VInt(n)], Maybe(atom, TopKBits(a, n)))
    decreases a
  {
    var xs, vs, o := [A, K], [OfBits(atom, a), VInt(n)], Maybe(atom, TopKBits(a, n));
    var env := Bind(map[], xs, vs);
    if Holds(env, xs, vs) {
      assert xs[0] in env && xs[1] in env;
      var more := Node(Call(TOP_K_BITS), [Var(A1), Minus(Var(K), Num(1))]);
      var cons := Two(BBLTC, Var(AI), more);
      if n == 0 {
        GivesLit(P, k, VCon(BBLTN, []), env);
      } else {
        if a.BbltC? {
          var inner, m := Taken(atom, env, AI, A1, a), n - 1;
          GivesVar(P, k, AI, inner);
          GivesVar(P, k, A1, inner);
          LessOne(P, k, inner, n);
          TopRuns(P, k - 1, atom, a.rest, m);
          GivesCall2(P, k, TOP_K_BITS, Var(A1), Minus(Var(K), Num(1)), inner, OfBits(atom, a.rest), VInt(m),
            Maybe(atom, TopKBits(a.rest, m)));
          GivesSecond(P, k, BBLTC, Var(AI), more, inner, OfFormula(atom, a.bit), Maybe(atom, TopKBits(a.rest, m)));
        } else {
          GivesFail(P, k, Data(BBLT), env);
        }
        GivesOnList(P, k, atom, A, FailBits(), AI, A1, cons, env, a, o);
      }
      GivesVar(P, k, K, env);
      GivesIfZero(P, k, Var(K), Empty(), OnList(A, FailBits(), AI, A1, cons), env, n, o);
    }
    RunsBody(P, k, TOP_K_BITS, xs, TopCode(), vs, env, o);
  }

  /** The second part may fail. */
  lemma GivesSecond(P: Program, k: nat, c: Name, a: Code, b: Code, env: Store, v: Value, o: Option<Value>)
    requires Gives(P, k, a, env, Some(v)) && Gives(P, k, b, env, o)
    ensures Gives(P, k, Two(c, a, b), env, if o.Some? then Some(VCon(c, [v, o.value])) else None)
  {
    if o.Some? {
      GivesTwo(P, k, c, a, b, env, v, o.value);
    } else {
      assert [a, b][|[v]|] == b;
      GivesNothing(P, k, Construct(c), [a, b], [v], env);
    }
  }

  function MaybeBit(atom: F.Prop -> Value, f: Option<F.Formula>): Option<Value> {
    if f.Some? then Some(OfFormula(atom, f.value)) else None
  }

  lemma {:induction false} KBitRuns(P: Program, k: nat, atom: F.Prop -> Value, a: Bits, n: int)
    requires Loaded(P) && Len(a) < k
    ensures CallGives(P, k, K_BIT, [OfBits(atom, a), VInt(n)], MaybeBit(atom, KBit(a, n)))
    decreases a
  {
    var xs, vs, o := [A, K], [OfBits(atom, a), VInt(n)], MaybeBit(atom, KBit(a, n));
    var env := Bind(map[], xs, vs);
    if Holds(env, xs, vs) {
      assert xs[0] in env && xs[1] in env;
      var more := Node(Call(K_BIT), [Var(A1), Minus(Var(K), Num(1))]);
      var cons := Node(IfZero, [Var(K), Var(AI), more]);
      if n < 0 {
        GivesFail(P, k, Data(FORMULA), env);
      } else {
        if a.BbltC? {
          var inner, m := Taken(atom, env, AI, A1, a), n - 1;
          GivesVar(P, k, AI, inner);
          GivesVar(P, k, K, inner);
          if n > 0 {
            GivesVar(P, k, A1, inner);
            LessOne(P, k, inner, n);
            KBitRuns(P, k - 1, atom, a.rest, m);
            GivesCall2(P, k, K_BIT, Var(A1), Minus(Var(K), Num(1)), inner, OfBits(atom, a.rest), VInt(m), o);
          }
          GivesIfZero(P, k, Var(K), Var(AI), more, inner, n, o);
        } else {
          GivesFail(P, k, Data(FORMULA), env);
        }
        GivesOnList(P, k, atom, A, FailFormula(), AI, A1, cons, env, a, o);
      }
      GivesVar(P, k, K, env);
      GivesIfNeg(P, k, Var(K), FailFormula(), OnList(A, FailFormula(), AI, A1, cons), env, n, o);
    }
    RunsBody(P, k, K_BIT, xs, KBitCode(), vs, env, o);
  }

  lemma {:induction false} AndRuns(P: Program, k: nat, atom: F.Prop -> Value, a: Bits, bt: F.Formula)
    requires Loaded(P) && Len(a) <= k
    ensures CallGives(P, k, AND_WITH_BIT, [OfBits(atom, a), OfFormula(atom, bt)], Some(OfBits(atom, AndWithBit(a, bt))))
    decreases a
  {
    var xs, vs, o := [A, BT], [OfBits(atom, a), OfFormula(atom, bt)], Some(OfBits(atom, AndWithBit(a, bt)));
    var env := Bind(map[], xs, vs);
    if Holds(env, xs, vs) {
      assert xs[0] in env && xs[1] in env;
      var bit, more := Two(AND, Var(BT), Var(AI)), Node(Call(AND_WITH_BIT), [Var(A1), Var(BT)]);
      if a.BbltN? {
        GivesLit(P, k, VCon(BBLTN, []), env);
      } else {
        var inner := Taken(atom, env, AI, A1, a);
        GivesVar(P, k, AI, inner);
        GivesVar(P, k, A1, inner);
        GivesVar(P, k, BT, inner);
        GivesTwo(P, k, AND, Var(BT), Var(AI), inner, vs[1], OfFormula(atom, a.bit));
        AndRuns(P, k - 1, atom, a.rest, bt);
        GivesCall2(P, k, AND_WITH_BIT, Var(A1), Var(BT), inner, OfBits(atom, a.rest), vs[1],
          Some(OfBits(atom, AndWithBit(a.rest, bt))));
        GivesTwo(P, k, BBLTC, bit, more, inner, OfFormula(atom, F.And(bt, a.bit)),
          OfBits(atom, AndWithBit(a.rest, bt)));
      }
      GivesOnList(P, k, atom, A, Empty(), AI, A1, Two(BBLTC, bit, more), env, a, o);
    }
    RunsBody(P, k, AND_WITH_BIT, xs, AndWithBitCode(), vs, env, o);
  }

  // ----- one row of the multiplier -----

  lemma GivesCall5(P: Program, k: nat, f: Name, es: seq<Code>, vs: seq<Value>, env: Store, o: Option<Value>)
    requires |es| == |vs| == 5 && k > 0 && CallGives(P, k - 1, f, vs, o)
    requires Gives(P, k, es[0], env, Some(vs[0])) && Gives(P, k, es[1], env, Some(vs[1]))
    requires Gives(P, k, es[2], env, Some(vs[2])) && Gives(P, k, es[3], env, Some(vs[3]))
    requires Gives(P, k, es[4], env, Some(vs[4]))
    ensures Gives(P, k, Node(Call(f), es), env, o)
  {
    GivesCall(P, k, f, es, vs, env, o);
  }

  function Arguments(atom: F.Prop -> Value, a: Bits, b: Bits, res: Bits, carry: F.Formula, n: int): seq<Value> {
    [OfBits(atom, a), OfBits(atom, b), OfBits(atom, res), OfFormula(atom, carry), VInt(n)]
  }

  /** The environment of the program with these arguments. */
  ghost predicate RowEnv(atom: F.Prop -> Value, env: Store, a: Bits, b: Bits, res: Bits, carry: F.Formula, n: int) {
    && A in env && env[A] == OfBits(atom, a) && B in env && env[B] == OfBits(atom, b)
    && RES in env && env[RES] == OfBits(atom, res) && CARRY in env && env[CARRY] == OfFormula(atom, carry)
    && K in env && env[K] == VInt(n)
  }

  lemma HoldsRow(atom: F.Prop -> Value, env: Store, a: Bits, b: Bits, res: Bits, carry: F.Formula, n: int)
    requires Holds(env, [A, B, RES, CARRY, K], Arguments(atom, a, b, res, carry, n))
    ensures RowEnv(atom, env, a, b, res, carry, n)
  {
    var xs := [A, B, RES, CARRY, K];
    assert xs[0] in env && xs[1] in env && xs[2] in env && xs[3] in env && xs[4] in env;
  }

  lemma {:induction false} StepHRuns(P: Program, k: nat, atom: F.Prop -> Value, a: Bits, b: Bits, res: Bits,
      carry: F.Formula, n: int)
    requires Loaded(P) && Len(a) < k
    ensures CallGives(P, k, MULT_STEP_K_H, Arguments(atom, a, b, res, carry, n),
      Maybe(atom, MultStepKH(a, b, res, carry, n)))
    decreases a, 2
  {
    var xs, vs := [A, B, RES, CARRY, K], Arguments(atom, a, b, res, carry, n);
    var o := Maybe(atom, MultStepKH(a, b, res, carry, n));
    var env := Bind(map[], xs, vs);
    if Holds(env, xs, vs) {
      HoldsRow(atom, env, a, b, res, carry, n);
      StepHBody(P, k, atom, a, b, res, carry, n, env);
    }
    RunsBody(P, k, MULT_STEP_K_H, xs, StepHCode(), vs, env, o);
  }

  lemma {:induction false} StepHBody(P: Program, k: nat, atom: F.Prop -> Value, a: Bits, b: Bits, res: Bits,
      carry: F.Formula, n: int, env: Store)
    requires Loaded(P) && Len(a) < k && RowEnv(atom, env, a, b, res, carry, n)
    ensures Gives(P, k, StepHCode(), env, Maybe(atom, MultStepKH(a, b, res, carry, n)))
    decreases a, 1
  {
    var o := Maybe(atom, MultStepKH(a, b, res, carry, n));
    var nil := Match(Var(B), [Case(BBLTN, [], Var(RES)), Default(FailBits())]);
    var choose := Node(IfNeg, [Minus(Var(K), Num(1)), AddHere(), PassOn()]);
    if a.BbltN? {
      GivesVar(P, k, RES, env);
      GivesFail(P, k, Data(BBLT), env);
      assert Bind(env, [], []) == env;
      GivesMatch(P, k, B, Case(BBLTN, [], Var(RES)), Default(FailBits()), env, o);
    } else {
      var inner := Taken(atom, env, AI, A1, a);
      if b.BbltC? {
        StepHBits(P, k, atom, a, b, res, carry, n, env);
      } else {
        GivesFail(P, k, Data(BBLT), inner);
      }
      GivesOnList(P, k, atom, B, FailBits(), BI, B1, choose, inner, b, o);
    }
    GivesOnList(P, k, atom, A, nil, AI, A1, OnList(B, FailBits(), BI, B1, choose), env, a, o);
  }

  lemma {:induction false} StepHBits(P: Program, k: nat, atom: F.Prop -> Value, a: Bits, b: Bits, res: Bits,
      carry: F.Formula, n: int, env: Store)
    requires Loaded(P) && Len(a) < k && RowEnv(atom, env, a, b, res, carry, n) && a.BbltC? && b.BbltC?
    ensures var inner := Taken(atom, Taken(atom, env, AI, A1, a), BI, B1, b);
      Gives(P, k, Node(IfNeg, [Minus(Var(K), Num(1)), AddHere(), PassOn()]), inner,
        Maybe(atom, MultStepKH(a, b, res, carry, n)))
    decreases a, 0
  {
    var inner, m, j := Taken(atom, Taken(atom, env, AI, A1, a), BI, B1, b), n - 1, k - 1;
    LessOne(P, k, inner, n);
    if m < 0 {
      StepHRuns(P, j, atom, a.rest, b.rest, BbltC(SumOf(a, b, carry), res), CarryOf(a, b, carry), m);
      AddHereGives(P, k, atom, a, b, res, carry, n, inner);
    } else {
      StepHRuns(P, j, atom, a.rest, b, BbltC(a.bit, res), carry, m);
      PassOnGives(P, k, atom, a, b, res, carry, n, inner);
    }
    GivesIfNeg(P, k, Minus(Var(K), Num(1)), AddHere(), PassOn(), inner, m,
      Maybe(atom, MultStepKH(a, b, res, carry, n)));
  }

  ghost predicate BitsEnv(atom: F.Prop -> Value, env: Store, a: Bits, b: Bits)
    requires a.BbltC? && b.BbltC?
  {
    && AI in env && env[AI] == OfFormula(atom, a.bit) && A1 in env && env[A1] == OfBits(atom, a.rest)
    && BI in env && env[BI] == OfFormula(atom, b.bit) && B1 in env && env[B1] == OfBits(atom, b.rest)
  }

  lemma PassOnGives(P: Program, k: nat, atom: F.Prop -> Value, a: Bits, b: Bits, res: Bits, carry: F.Formula, n: int,
      env: Store)
    requires Loaded(P) && k > 0 && a.BbltC? && b.BbltC? && n >= 1
    requires RowEnv(atom, env, a, b, res, carry, n) && BitsEnv(atom, env, a, b)
    requires CallGives(P, k - 1, MULT_STEP_K_H, Arguments(atom, a.rest, b, BbltC(a.bit, res), carry, n - 1),
      Maybe(atom, MultStepKH(a.rest, b, BbltC(a.bit, res), carry, n - 1)))
    ensures Gives(P, k, PassOn(), env, Maybe(atom, MultStepKH(a, b, res, carry, n)))
  {
    var res' := BbltC(a.bit, res);
    GivesVar(P, k, A1, env);
    GivesVar(P, k, B, env);
    GivesVar(P, k, AI, env);
    GivesVar(P, k, RES, env);
    GivesVar(P, k, CARRY, env);
    GivesTwo(P, k, BBLTC, Var(AI), Var(RES), env, OfFormula(atom, a.bit), OfBits(atom, res));
    LessOne(P, k, env, n);
    GivesCall5(P, k, MULT_STEP_K_H, PassOn().kids, Arguments(atom, a.rest, b, res', carry, n - 1), env,
      Maybe(atom, MultStepKH(a, b, res, carry, n)));
  }

  function CarryOf(a: Bits, b: Bits, carry: F.Formula): F.Formula
    requires a.BbltC? && b.BbltC?
  {
    F.Or(F.And(a.bit, b.bit), F.And(F.Xor(a.bit, b.bit), carry))
  }

  function SumOf(a: Bits, b: Bits, carry: F.Formula): F.Formula
    requires a.BbltC? && b.BbltC?
  {
    F.Xor(F.Xor(a.bit, b.bit), carry)
  }

  lemma FullAdderGives(P: Program, k: nat, atom: F.Prop -> Value, a: Bits, b: Bits, carry: F.Formula, env: Store)
    requires a.BbltC? && b.BbltC? && BitsEnv(atom, env, a, b) && CARRY in env && env[CARRY] == OfFormula(atom, carry)
    ensures Gives(P, k, CarryOutCode(), env, Some(OfFormula(atom, CarryOf(a, b, carry))))
    ensures Gives(P, k, CurrCode(), env, Some(OfFormula(atom, SumOf(a, b, carry))))
  {
    var x, y, c := OfFormula(atom, a.bit), OfFormula(atom, b.bit), OfFormula(atom, carry);
    var xy := OfFormula(atom, F.Xor(a.bit, b.bit));
    GivesVar(P, k, AI, env);
    GivesVar(P, k, BI, env);
    GivesVar(P, k, CARRY, env);
    GivesTwo(P, k, AND, Var(AI), Var(BI), env, x, y);
    GivesTwo(P, k, XOR, Var(AI), Var(BI), env, x, y);
    GivesTwo(P, k, AND, Two(XOR, Var(AI), Var(BI)), Var(CARRY), env, xy, c);
    GivesTwo(P, k, XOR, Two(XOR, Var(AI), Var(BI)), Var(CARRY), env, xy, c);
    GivesTwo(P, k, OR, Two(AND, Var(AI), Var(BI)), Two(AND, Two(XOR, Var(AI), Var(BI)), Var(CARRY)), env,
      OfFormula(atom, F.And(a.bit, b.bit)), OfFormula(atom, F.And(F.Xor(a.bit, b.bit), carry)));
  }

  lemma AddHereGives(P: Program, k: nat, atom: F.Prop -> Value, a: Bits, b: Bits, res: Bits, carry: F.Formula, n: int,
      env: Store)
    requires Loaded(P) && k > 0 && a.BbltC? && b.BbltC? && n < 1
    requires RowEnv(atom, env, a, b, res, carry, n) && BitsEnv(atom, env, a, b)
    requires CallGives(P, k - 1, MULT_STEP_K_H,
      Arguments(atom, a.rest, b.rest, BbltC(SumOf(a, b, carry), res), CarryOf(a, b, carry), n - 1),
      Maybe(atom, MultStepKH(a.rest, b.rest, BbltC(SumOf(a, b, carry), res), CarryOf(a, b, carry), n - 1)))
    ensures Gives(P, k, AddHere(), env, Maybe(atom, MultStepKH(a, b, res, carry, n)))
  {
    var out, sum := OfFormula(atom, CarryOf(a, b, carry)), OfFormula(atom, SumOf(a, b, carry));
    var o := Maybe(atom, MultStepKH(a, b, res, carry, n));
    var env1 := env[CARRY_OUT := out];
    var env2 := env1[CURR := sum];
    var call := AddHere().body.body;
    var res' := BbltC(SumOf(a, b, carry), res);
    FullAdderGives(P, k, atom, a, b, carry, env);
    FullAdderGives(P, k, atom, a, b, carry, env1);
    GivesVar(P, k, A1, env2);
    GivesVar(P, k, B1, env2);
    GivesVar(P, k, CURR, env2);
    GivesVar(P, k, RES, env2);
    GivesVar(P, k, CARRY_OUT, env2);
    GivesTwo(P, k, BBLTC, Var(CURR), Var(RES), env2, sum, OfBits(atom, res));
    LessOne(P, k, env2, n);
    GivesCall5(P, k, MULT_STEP_K_H, call.kids,
      Arguments(atom, a.rest, b.rest, res', CarryOf(a, b, carry), n - 1), env2, o);
    GivesLet(P, k, CURR, CurrCode(), call, env1, sum, o);
    GivesLet(P, k, CARRY_OUT, CarryOutCode(), Let(CURR, CurrCode(), call), env, out, o);
  }

  // ----- row after row -----

  lemma {:induction false} TopLength(a: Bits, n: int)
    ensures TopKBits(a, n).Some? ==> Len(TopKBits(a, n).value) <= Len(a)
    decreases a
  {
    if n != 0 && a.BbltC? { TopLength(a.rest, n - 1); }
  }

  lemma {:induction false} AndLength(a: Bits, bt: F.Formula)
    ensures Len(AndWithBit(a, bt)) == Len(a)
  {
    if a.BbltC? { AndLength(a.rest, bt); }
  }

  lemma {:induction false} ReverseLength(x: Bits, acc: Bits)
    ensures Len(ReverseHelp(x, acc)) == Len(x) + Len(acc)
    decreases x
  {
    if x.BbltC? { ReverseLength(x.rest, BbltC(x.bit, acc)); }
  }

  lemma {:induction false} RowLength(a: Bits, b: Bits, res: Bits, carry: F.Formula, n: int)
    ensures MultStepKH(a, b, res, carry, n).Some? ==> Len(MultStepKH(a, b, res, carry, n).value) == Len(a) + Len(res)
    decreases a
  {
    if a.BbltC? && b.BbltC? {
      if n - 1 < 0 {
        RowLength(a.rest, b.rest, BbltC(SumOf(a, b, carry), res), CarryOf(a, b, carry), n - 1);
      } else {
        RowLength(a.rest, b, BbltC(a.bit, res), carry, n - 1);
      }
    }
  }

  /** The rows that are left. */
  function Rows(n: int, i: int): nat { if n - i < 0 then 0 else n - i + 1 }

  predicate Enough(k: nat, a: Bits, b: Bits, res: Bits, n: int, i: int) {
    k > Len(a) + Len(b) + Len(res) + 2 + Rows(n, i)
  }

  function StepArguments(atom: F.Prop -> Value, a: Bits, b: Bits, res: Bits, n: int, i: int): seq<Value> {
    [OfBits(atom, a), OfBits(atom, b), OfBits(atom, res), VInt(n), VInt(i)]
  }

  ghost predicate StepEnv(atom: F.Prop -> Value, env: Store, a: Bits, b: Bits, res: Bits, n: int, i: int) {
    && A in env && env[A] == OfBits(atom, a) && B in env && env[B] == OfBits(atom, b)
    && RES in env && env[RES] == OfBits(atom, res) && NN in env && env[NN] == VInt(n) && K in env && env[K] == VInt(i)
  }

  lemma HoldsStep(atom: F.Prop -> Value, env: Store, a: Bits, b: Bits, res: Bits, n: int, i: int)
    requires Holds(env, [A, B, RES, NN, K], StepArguments(atom, a, b, res, n, i))
    ensures StepEnv(atom, env, a, b, res, n, i)
  {
    var xs := [A, B, RES, NN, K];
    assert xs[0] in env && xs[1] in env && xs[2] in env && xs[3] in env && xs[4] in env;
  }

  lemma {:induction false} StepRuns(P: Program, k: nat, atom: F.Prop -> Value, a: Bits, b: Bits, res: Bits, n: int,
      i: int)
    requires Loaded(P) && Enough(k, a, b, res, n, i)
    ensures CallGives(P, k, MULT_STEP, StepArguments(atom, a, b, res, n, i), Maybe(atom, MultStep(a, b, res, n, i)))
    decreases Rows(n, i), 4
  {
    var xs, vs := [A, B, RES, NN, K], StepArguments(atom, a, b, res, n, i);
    var o := Maybe(atom, MultStep(a, b, res, n, i));
    var env := Bind(map[], xs, vs);
    if Holds(env, xs, vs) {
      HoldsStep(atom, env, a, b, res, n, i);
      StepBody(P, k, atom, a, b, res, n, i, env);
    }
    RunsBody(P, k, MULT_STEP, xs, StepCode(), vs, env, o);
  }

  lemma {:induction false} StepBody(P: Program, k: nat, atom: F.Prop -> Value, a: Bits, b: Bits, res: Bits, n: int,
      i: int, env: Store)
    requires Loaded(P) && Enough(k, a, b, res, n, i) && StepEnv(atom, env, a, b, res, n, i)
    ensures Gives(P, k, StepCode(), env, Maybe(atom, MultStep(a, b, res, n, i)))
    decreases Rows(n, i), 3
  {
    var o, j, m := Maybe(atom, MultStep(a, b, res, n, i)), k - 1, n - i;
    var env1 := env[K1 := VInt(m)];
    var rest := StepCode().body;
    var ak := TopKBits(a, m);
    GivesVar(P, k, NN, env);
    GivesVar(P, k, K, env);
    GivesMinus(P, k, Var(NN), Var(K), env, n, i);
    GivesVar(P, k, A, env1);
    GivesVar(P, k, K1, env1);
    TopRuns(P, j, atom, a, m);
    GivesCall2(P, k, TOP_K_BITS, Var(A), Var(K1), env1, OfBits(atom, a), VInt(m), Maybe(atom, ak));
    if ak.Some? {
      StepRow(P, k, atom, a, b, res, n, i, ak.value, env1[AK := OfBits(atom, ak.value)]);
      GivesLet(P, k, AK, rest.rhs, rest.body, env1, OfBits(atom, ak.value), o);
    } else {
      LetFails(P, k, AK, rest.rhs, rest.body, env1);
    }
    GivesLet(P, k, K1, StepCode().rhs, rest, env, VInt(m), o);
  }

  lemma {:induction false} StepRow(P: Program, k: nat, atom: F.Prop -> Value, a: Bits, b: Bits, res: Bits, n: int,
      i: int, ak: Bits, env: Store)
    requires Loaded(P) && Enough(k, a, b, res, n, i) && StepEnv(atom, env, a, b, res, n, i)
    requires TopKBits(a, n - i) == Some(ak)
    requires K1 in env && env[K1] == VInt(n - i) && AK in env && env[AK] == OfBits(atom, ak)
    ensures Gives(P, k, StepCode().body.body, env, Maybe(atom, MultStep(a, b, res, n, i)))
    decreases Rows(n, i), 2
  {
    var o, j := Maybe(atom, MultStep(a, b, res, n, i)), k - 1;
    var let := StepCode().body.body;
    var bit := Node(Call(K_BIT), [Var(B), Var(K)]);
    var bk := KBit(b, i);
    TopLength(a, n - i);
    GivesVar(P, k, AK, env);
    GivesVar(P, k, B, env);
    GivesVar(P, k, K, env);
    KBitRuns(P, j, atom, b, i);
    GivesCall2(P, k, K_BIT, Var(B), Var(K), env, OfBits(atom, b), VInt(i), MaybeBit(atom, bk));
    if bk.Some? {
      var row := AndWithBit(ak, bk.value);
      AndRuns(P, j, atom, ak, bk.value);
      GivesCall2(P, k, AND_WITH_BIT, Var(AK), bit, env, OfBits(atom, ak), OfFormula(atom, bk.value),
        Some(OfBits(atom, row)));
      StepAdd(P, k, atom, a, b, res, n, i, row, env[B1 := OfBits(atom, row)]);
      GivesLet(P, k, B1, let.rhs, let.body, env, OfBits(atom, row), o);
    } else {
      assert [Var(AK), bit][|[OfBits(atom, ak)]|] == bit;
      GivesNothing(P, k, Call(AND_WITH_BIT), [Var(AK), bit], [OfBits(atom, ak)], env);
      LetFails(P, k, B1, let.rhs, let.body, env);
    }
  }

  /** The row has been made: it is added, and the next one follows. */
  lemma {:induction false} StepAdd(P: Program, k: nat, atom: F.Prop -> Value, a: Bits, b: Bits, res: Bits, n: int,
      i: int, row: Bits, env: Store)
    requires Loaded(P) && Enough(k, a, b, res, n, i) && StepEnv(atom, env, a, b, res, n, i)
    requires TopKBits(a, n - i).Some? && KBit(b, i).Some?
    requires row == AndWithBit(TopKBits(a, n - i).value, KBit(b, i).value)
    requires K1 in env && env[K1] == VInt(n - i) && B1 in env && env[B1] == OfBits(atom, row)
    ensures Gives(P, k, StepCode().body.body.body, env, Maybe(atom, MultStep(a, b, res, n, i)))
    decreases Rows(n, i), 1
  {
    var sum := MultStepKH(res, row, BbltN, F.False, i);
    AddRowGives(P, k, atom, res, row, i, env);
    GivesVar(P, k, K1, env);
    GivesLit(P, k, VInt(1), env);
    GivesMinus(P, k, Var(K1), Num(1), env, n - i, 1);
    if n - i - 1 != 0 {
      if sum.Some? {
        StepNext(P, k, atom, a, b, res, n, i, row, sum.value, env);
      } else {
        LetFails(P, k, RES1, AddRow(), NextRow().body, env);
      }
    }
    GivesIfZero(P, k, Minus(Var(K1), Num(1)), AddRow(), NextRow(), env, n - i - 1,
      Maybe(atom, MultStep(a, b, res, n, i)));
  }

  lemma {:induction false} StepNext(P: Program, k: nat, atom: F.Prop -> Value, a: Bits, b: Bits, res: Bits, n: int,
      i: int, row: Bits, sum: Bits, env: Store)
    requires Loaded(P) && Enough(k, a, b, res, n, i) && StepEnv(atom, env, a, b, res, n, i)
    requires TopKBits(a, n - i).Some? && MultStepKH(res, row, BbltN, F.False, i) == Some(sum)
    requires Gives(P, k, AddRow(), env, Some(OfBits(atom, sum)))
    ensures Gives(P, k, NextRow(), env, Maybe(atom, MultStep(a, b, ReverseB(sum), n, i + 1)))
    decreases Rows(n, i), 0
  {
    TopNegative(a, n - i);
    RowLength(res, row, BbltN, F.False, i);
    ReverseLength(sum, BbltN);
    StepRuns(P, k - 1, atom, a, b, ReverseB(sum), n, i + 1);
    NextRowGives(P, k, atom, a, b, res, n, i, sum, env);
  }

  lemma TopNegative(a: Bits, n: int)
    requires TopKBits(a, n).Some?
    ensures n >= 0
  {
  }

  lemma AddRowGives(P: Program, k: nat, atom: F.Prop -> Value, res: Bits, row: Bits, i: int, env: Store)
    requires Loaded(P) && Len(res) + 1 < k && RES in env && env[RES] == OfBits(atom, res)
    requires B1 in env && env[B1] == OfBits(atom, row) && K in env && env[K] == VInt(i)
    ensures Gives(P, k, AddRow(), env, Maybe(atom, MultStepKH(res, row, BbltN, F.False, i)))
  {
    GivesVar(P, k, RES, env);
    GivesVar(P, k, B1, env);
    GivesVar(P, k, K, env);
    GivesLit(P, k, VCon(BBLTN, []), env);
    GivesLit(P, k, VCon(FALSE, []), env);
    StepHRuns(P, k - 1, atom, res, row, BbltN, F.False, i);
    GivesCall5(P, k, MULT_STEP_K_H, AddRow().kids, Arguments(atom, res, row, BbltN, F.False, i), env,
      Maybe(atom, MultStepKH(res, row, BbltN, F.False, i)));
  }

  lemma NextRowGives(P: Program, k: nat, atom: F.Prop -> Value, a: Bits, b: Bits, res: Bits, n: int, i: int, sum: Bits,
      env: Store)
    requires Loaded(P) && StepEnv(atom, env, a, b, res, n, i) && Len(sum) + 1 < k
    requires Gives(P, k, AddRow(), env, Some(OfBits(atom, sum)))
    requires CallGives(P, k - 1, MULT_STEP, StepArguments(atom, a, b, ReverseB(sum), n, i + 1),
      Maybe(atom, MultStep(a, b, ReverseB(sum), n, i + 1)))
    ensures Gives(P, k, NextRow(), env, Maybe(atom, MultStep(a, b, ReverseB(sum), n, i + 1)))
  {
    var o := Maybe(atom, MultStep(a, b, ReverseB(sum), n, i + 1));
    var inner := env[RES1 := OfBits(atom, sum)];
    var call := NextRow().body;
    GivesVar(P, k, A, inner);
    GivesVar(P, k, B, inner);
    GivesVar(P, k, RES1, inner);
    GivesVar(P, k, NN, inner);
    GivesVar(P, k, K, inner);
    GivesLit(P, k, VInt(1), inner);
    GivesArith(P, k, Add, Var(K), Num(1), inner, i, 1);
    GivesReverse(P, k, atom, RES1, sum, inner);
    GivesCall5(P, k, MULT_STEP, call.kids, StepArguments(atom, a, b, ReverseB(sum), n, i + 1), inner, o);
    GivesLet(P, k, RES1, AddRow(), call, env, OfBits(atom, sum), o);
  }

  lemma GivesReverse(P: Program, k: nat, atom: F.Prop -> Value, x: Name, b: Bits, env: Store)
    requires Loaded(P) && Len(b) + 1 < k && x in env && env[x] == OfBits(atom, b)
    ensures Gives(P, k, Node(Call(REVERSEB), [Var(x)]), env, Some(OfBits(atom, ReverseB(b))))
  {
    GivesVar(P, k, x, env);
    ReverseRuns(P, k - 1, atom, b);
    GivesCall(P, k, REVERSEB, [Var(x)], [OfBits(atom, b)], env, Some(OfBits(atom, ReverseB(b))));
  }

  // ----- the multiplier -----

  function MulArguments(atom: F.Prop -> Value, a: Bits, b: Bits, n: int): seq<Value> {
    [OfBits(atom, a), OfBits(atom, b), VInt(n)]
  }

  /** Running `bblast_bvmul` on any two lists and any number: it fails exactly
      where `BlastMul` does, and otherwise returns its list. */
  lemma MulRuns(P: Program, k: nat, atom: F.Prop -> Value, a: Bits, b: Bits, n: int)
    requires Loaded(P) && k > 2 * Len(a) + Len(b) + 4 + Rows(n, 0)
    ensures CallGives(P, k, BVMUL, MulArguments(atom, a, b, n), Maybe(atom, BlastMul(a, b, n)))
  {
    var xs, vs, o := [A, B, NN], MulArguments(atom, a, b, n), Maybe(atom, BlastMul(a, b, n));
    var env := Bind(map[], xs, vs);
    if Holds(env, xs, vs) {
      assert xs[0] in env && xs[1] in env && xs[2] in env;
      var env1 := env[AR := OfBits(atom, ReverseB(a))];
      var env2 := env1[BR := OfBits(atom, ReverseB(b))];
      GivesReverse(P, k, atom, A, a, env);
      GivesReverse(P, k, atom, B, b, env1);
      MulRows(P, k, atom, a, b, n, env2);
      GivesLet(P, k, BR, MulCode().body.rhs, MulCode().body.body, env1, OfBits(atom, ReverseB(b)), o);
      GivesLet(P, k, AR, MulCode().rhs, MulCode().body, env, OfBits(atom, ReverseB(a)), o);
    }
    RunsBody(P, k, BVMUL, xs, MulCode(), vs, env, o);
  }

  ghost predicate MulEnv(atom: F.Prop -> Value, env: Store, ar: Bits, br: Bits, n: int) {
    && AR in env && env[AR] == OfBits(atom, ar) && BR in env && env[BR] == OfBits(atom, br)
    && NN in env && env[NN] == VInt(n)
  }

  lemma MulRows(P: Program, k: nat, atom: F.Prop -> Value, a: Bits, b: Bits, n: int, env: Store)
    requires Loaded(P) && k > 2 * Len(a) + Len(b) + 4 + Rows(n, 0)
    requires MulEnv(atom, env, ReverseB(a), ReverseB(b), n)
    ensures Gives(P, k, MulCode().body.body, env, Maybe(atom, BlastMul(a, b, n)))
  {
    var o, j := Maybe(atom, BlastMul(a, b, n)), k - 1;
    var let, bit := MulCode().body.body, Node(Call(K_BIT), [Var(BR), Num(0)]);
    var ar, br := ReverseB(a), ReverseB(b);
    var b0 := KBit(br, 0);
    ReverseLength(a, BbltN);
    ReverseLength(b, BbltN);
    GivesVar(P, k, AR, env);
    GivesVar(P, k, BR, env);
    GivesLit(P, k, VInt(0), env);
    KBitRuns(P, j, atom, br, 0);
    GivesCall2(P, k, K_BIT, Var(BR), Num(0), env, OfBits(atom, br), VInt(0), MaybeBit(atom, b0));
    if b0.Some? {
      var res := AndWithBit(ar, b0.value);
      AndLength(ar, b0.value);
      AndRuns(P, j, atom, ar, b0.value);
      GivesCall2(P, k, AND_WITH_BIT, Var(AR), bit, env, OfBits(atom, ar), OfFormula(atom, b0.value),
        Some(OfBits(atom, res)));
      MulChoice(P, k, atom, a, b, n, res, env[RES := OfBits(atom, res)]);
      GivesLet(P, k, RES, let.rhs, let.body, env, OfBits(atom, res), o);
    } else {
      assert [Var(AR), bit][|[OfBits(atom, ar)]|] == bit;
      GivesNothing(P, k, Call(AND_WITH_BIT), [Var(AR), bit], [OfBits(atom, ar)], env);
      LetFails(P, k, RES, let.rhs, let.body, env);
    }
  }

  lemma MulChoice(P: Program, k: nat, atom: F.Prop -> Value, a: Bits, b: Bits, n: int, res: Bits, env: Store)
    requires Loaded(P) && k > 2 * Len(a) + Len(b) + 4 + Rows(n, 0) && KBit(ReverseB(b), 0).Some?
    requires MulEnv(atom, env, ReverseB(a), ReverseB(b), n) && RES in env && env[RES] == OfBits(atom, res)
    requires res == AndWithBit(ReverseB(a), KBit(ReverseB(b), 0).value)
    requires Len(ReverseB(a)) == Len(a) == Len(res) && Len(ReverseB(b)) == Len(b)
    ensures Gives(P, k, MulCode().body.body.body, env, Maybe(atom, BlastMul(a, b, n)))
  {
    var o, ar, br := Maybe(atom, BlastMul(a, b, n)), ReverseB(a), ReverseB(b);
    var call := Node(Call(MULT_STEP), [Var(AR), Var(BR), Var(RES), Var(NN), Num(1)]);
    GivesVar(P, k, NN, env);
    GivesLit(P, k, VInt(1), env);
    GivesMinus(P, k, Var(NN), Num(1), env, n, 1);
    if n - 1 == 0 { GivesVar(P, k, RES, env); } else { FirstStepGives(P, k, atom, ar, br, res, n, env); }
    GivesIfZero(P, k, Minus(Var(NN), Num(1)), Var(RES), call, env, n - 1, o);
  }

  lemma FirstStepGives(P: Program, k: nat, atom: F.Prop -> Value, ar: Bits, br: Bits, res: Bits, n: int, env: Store)
    requires Loaded(P) && k > 0 && Enough(k - 1, ar, br, res, n, 1)
    requires MulEnv(atom, env, ar, br, n) && RES in env && env[RES] == OfBits(atom, res)
    ensures Gives(P, k, Node(Call(MULT_STEP), [Var(AR), Var(BR), Var(RES), Var(NN), Num(1)]), env,
      Maybe(atom, MultStep(ar, br, res, n, 1)))
  {
    var es := [Var(AR), Var(BR), Var(RES), Var(NN), Num(1)];
    GivesVar(P, k, AR, env);
    GivesVar(P, k, BR, env);
    GivesVar(P, k, RES, env);
    GivesVar(P, k, NN, env);
    GivesLit(P, k, VInt(1), env);
    StepRuns(P, k - 1, atom, ar, br, res, n, 1);
    GivesCall5(P, k, MULT_STEP, es, StepArguments(atom, ar, br, res, n, 1), env,
      Maybe(atom, MultStep(ar, br, res, n, 1)));
  }

  // ----- the shipped interpreter -----

  function Own(): set<Name> {
    {MPZ_SUB, REVERSE_HELP, REVERSEB, TOP_K_BITS, K_BIT, AND_WITH_BIT, MULT_STEP_K_H, MULT_STEP, BVMUL}
  }

  lemma WithinList(x: Name, nil: Code, hd: Name, tl: Name, cons: Code, xs: set<Name>)
    requires x in xs && FreeVars(nil) <= xs && FreeVars(cons) <= xs + {hd, tl}
    ensures FreeVars(OnList(x, nil, hd, tl, cons)) <= xs
  {
    assert Elements([hd, tl]) == {hd, tl};
    WithinMatch(x, Case(BBLTN, [], nil), Case(BBLTC, [hd, tl], cons), xs);
  }

  lemma WithinTwo(op: Op, a: Code, b: Code, xs: set<Name>)
    requires FreeVars(a) <= xs && FreeVars(b) <= xs
    ensures FreeVars(Node(op, [a, b])) <= xs
  {
    WithinNode(op, [a, b], xs);
  }

  lemma WithinThree(op: Op, a: Code, b: Code, c: Code, xs: set<Name>)
    requires FreeVars(a) <= xs && FreeVars(b) <= xs && FreeVars(c) <= xs
    ensures FreeVars(Node(op, [a, b, c])) <= xs
  {
    WithinNode(op, [a, b, c], xs);
  }

  lemma ListsClosed()
    ensures FreeVars(SubCode()) <= {X, Y} && FreeVars(ReverseHelpCode()) <= {X, ACC} && FreeVars(ReverseCode()) <= {X}
    ensures FreeVars(AndWithBitCode()) <= {A, BT}
  {
    WithinTwo(Mul, Num(-1), Var(Y), {X, Y});
    WithinTwo(Add, Var(X), Node(Mul, [Num(-1), Var(Y)]), {X, Y});
    var help := Two(BBLTC, Var(XI), Var(ACC));
    WithinTwo(Construct(BBLTC), Var(XI), Var(ACC), {X, ACC, XI, X1});
    WithinTwo(Call(REVERSE_HELP), Var(X1), help, {X, ACC, XI, X1});
    WithinList(X, Var(ACC), XI, X1, Node(Call(REVERSE_HELP), [Var(X1), help]), {X, ACC});
    WithinTwo(Call(REVERSE_HELP), Var(X), Empty(), {X});
    var bit, more := Two(AND, Var(BT), Var(AI)), Node(Call(AND_WITH_BIT), [Var(A1), Var(BT)]);
    WithinTwo(Construct(AND), Var(BT), Var(AI), {A, BT, AI, A1});
    WithinTwo(Call(AND_WITH_BIT), Var(A1), Var(BT), {A, BT, AI, A1});
    WithinTwo(Construct(BBLTC), bit, more, {A, BT, AI, A1});
    WithinList(A, Empty(), AI, A1, Two(BBLTC, bit, more), {A, BT});
  }

  lemma BitsClosed()
    ensures FreeVars(TopCode()) <= {A, K} && FreeVars(KBitCode()) <= {A, K}
  {
    var xs, all, less := {A, K}, {A, K, AI, A1}, Minus(Var(K), Num(1));
    WithinTwo(Call(MPZ_SUB), Var(K), Num(1), all);
    var more := Node(Call(TOP_K_BITS), [Var(A1), less]);
    WithinTwo(Call(TOP_K_BITS), Var(A1), less, all);
    WithinTwo(Construct(BBLTC), Var(AI), more, all);
    WithinList(A, FailBits(), AI, A1, Two(BBLTC, Var(AI), more), xs);
    WithinThree(IfZero, Var(K), Empty(), OnList(A, FailBits(), AI, A1, Two(BBLTC, Var(AI), more)), xs);
    var next := Node(Call(K_BIT), [Var(A1), less]);
    WithinTwo(Call(K_BIT), Var(A1), less, all);
    WithinThree(IfZero, Var(K), Var(AI), next, all);
    WithinList(A, FailFormula(), AI, A1, Node(IfZero, [Var(K), Var(AI), next]), xs);
    WithinThree(IfNeg, Var(K), FailFormula(), OnList(A, FailFormula(), AI, A1, Node(IfZero, [Var(K), Var(AI), next])),
      xs);
  }

  lemma AdderClosed(xs: set<Name>)
    requires AI in xs && BI in xs && CARRY in xs
    ensures FreeVars(CarryOutCode()) <= xs && FreeVars(CurrCode()) <= xs
  {
    WithinTwo(Construct(AND), Var(AI), Var(BI), xs);
    WithinTwo(Construct(XOR), Var(AI), Var(BI), xs);
    WithinTwo(Construct(AND), Two(XOR, Var(AI), Var(BI)), Var(CARRY), xs);
    WithinTwo(Construct(XOR), Two(XOR, Var(AI), Var(BI)), Var(CARRY), xs);
    WithinTwo(Construct(OR), Two(AND, Var(AI), Var(BI)), Two(AND, Two(XOR, Var(AI), Var(BI)), Var(CARRY)), xs);
  }

  /** The variables at hand where two bits are added. */
  predicate RowVars(xs: set<Name>) {
    A in xs && B in xs && RES in xs && CARRY in xs && K in xs && AI in xs && A1 in xs && BI in xs && B1 in xs
  }

  lemma PassOnClosed(xs: set<Name>)
    requires RowVars(xs)
    ensures FreeVars(PassOn()) <= xs
  {
    WithinTwo(Call(MPZ_SUB), Var(K), Num(1), xs);
    WithinTwo(Construct(BBLTC), Var(AI), Var(RES), xs);
    WithinNode(Call(MULT_STEP_K_H), PassOn().kids, xs);
  }

  lemma AddHereClosed(xs: set<Name>)
    requires RowVars(xs)
    ensures FreeVars(AddHere()) <= xs
  {
    var all := xs + {CARRY_OUT, CURR};
    AdderClosed(xs);
    WithinTwo(Call(MPZ_SUB), Var(K), Num(1), all);
    WithinTwo(Construct(BBLTC), Var(CURR), Var(RES), all);
    WithinNode(Call(MULT_STEP_K_H), AddHere().body.body.kids, all);
  }

  lemma StepHClosed()
    ensures FreeVars(StepHCode()) <= {A, B, RES, CARRY, K}
  {
    var xs := {A, B, RES, CARRY, K};
    var all := xs + {AI, A1} + {BI, B1};
    var choose := Node(IfNeg, [Minus(Var(K), Num(1)), AddHere(), PassOn()]);
    var nil := Match(Var(B), [Case(BBLTN, [], Var(RES)), Default(FailBits())]);
    PassOnClosed(all);
    AddHereClosed(all);
    WithinTwo(Call(MPZ_SUB), Var(K), Num(1), all);
    WithinThree(IfNeg, Minus(Var(K), Num(1)), AddHere(), PassOn(), all);
    WithinList(B, FailBits(), BI, B1, choose, xs + {AI, A1});
    WithinMatch(B, Case(BBLTN, [], Var(RES)), Default(FailBits()), xs);
    WithinList(A, nil, AI, A1, OnList(B, FailBits(), BI, B1, choose), xs);
  }

  lemma RowsClosed(xs: set<Name>)
    requires A in xs && B in xs && RES in xs && NN in xs && K in xs && B1 in xs
    ensures FreeVars(AddRow()) <= xs && FreeVars(NextRow()) <= xs
  {
    var all := xs + {RES1};
    WithinNode(Call(MULT_STEP_K_H), AddRow().kids, xs);
    WithinNode(Call(REVERSEB), [Var(RES1)], all);
    WithinTwo(Add, Var(K), Num(1), all);
    WithinNode(Call(MULT_STEP), NextRow().body.kids, all);
  }

  lemma StepClosed()
    ensures FreeVars(StepCode()) <= {A, B, RES, NN, K}
  {
    var xs := {A, B, RES, NN, K};
    WithinTwo(Call(MPZ_SUB), Var(NN), Var(K), xs);
    WithinTwo(Call(TOP_K_BITS), Var(A), Var(K1), xs + {K1});
    RowOnwardClosed(xs + {K1} + {AK});
  }

  lemma RowOnwardClosed(xs: set<Name>)
    requires A in xs && B in xs && RES in xs && NN in xs && K in xs && K1 in xs && AK in xs
    ensures FreeVars(StepCode().body.body) <= xs
  {
    var all := xs + {B1};
    WithinTwo(Call(K_BIT), Var(B), Var(K), xs);
    WithinTwo(Call(AND_WITH_BIT), Var(AK), Node(Call(K_BIT), [Var(B), Var(K)]), xs);
    RowsClosed(all);
    WithinTwo(Call(MPZ_SUB), Var(K1), Num(1), all);
    WithinThree(IfZero, Minus(Var(K1), Num(1)), AddRow(), NextRow(), all);
  }

  lemma MulClosed()
    ensures FreeVars(MulCode()) <= {A, B, NN}
  {
    var all := {A, B, NN, AR, BR, RES};
    var call := Node(Call(MULT_STEP), [Var(AR), Var(BR), Var(RES), Var(NN), Num(1)]);
    WithinNode(Call(REVERSEB), [Var(A)], {A, B, NN});
    WithinNode(Call(REVERSEB), [Var(B)], {A, B, NN});
    WithinTwo(Call(K_BIT), Var(BR), Num(0), {BR, AR});
    WithinTwo(Call(AND_WITH_BIT), Var(AR), Node(Call(K_BIT), [Var(BR), Num(0)]), {BR, AR});
    WithinTwo(Call(MPZ_SUB), Var(NN), Num(1), all);
    WithinNode(Call(MULT_STEP), call.kids, all);
    WithinThree(IfZero, Minus(Var(NN), Num(1)), Var(RES), call, all);
  }

  predicate ClosedAt(P: Program, f: Name) {
    f in P.progs && !P.progs[f].isFunction && FreeVars(P.progs[f].body) <= Elements(P.progs[f].params)
  }

  lemma IsClosed(P: Program, f: Name, xs: seq<Name>, body: Code, vars: set<Name>)
    requires Defines(P, f, xs, body) && FreeVars(body) <= vars && vars <= Elements(xs)
    ensures ClosedAt(P, f)
  {
  }

  lemma ListsLoaded(P: Program)
    requires Loaded(P)
    ensures ClosedAt(P, MPZ_SUB) && ClosedAt(P, REVERSE_HELP) && ClosedAt(P, REVERSEB) && ClosedAt(P, AND_WITH_BIT)
  {
    ListsClosed();
    IsClosed(P, MPZ_SUB, [X, Y], SubCode(), {X, Y});
    IsClosed(P, REVERSE_HELP, [X, ACC], ReverseHelpCode(), {X, ACC});
    IsClosed(P, REVERSEB, [X], ReverseCode(), {X});
    IsClosed(P, AND_WITH_BIT, [A, BT], AndWithBitCode(), {A, BT});
  }

  lemma BitsLoaded(P: Program)
    requires Loaded(P)
    ensures ClosedAt(P, TOP_K_BITS) && ClosedAt(P, K_BIT)
  {
    BitsClosed();
    IsClosed(P, TOP_K_BITS, [A, K], TopCode(), {A, K});
    IsClosed(P, K_BIT, [A, K], KBitCode(), {A, K});
  }

  lemma RowsLoaded(P: Program)
    requires Loaded(P)
    ensures ClosedAt(P, MULT_STEP_K_H) && ClosedAt(P, MULT_STEP) && ClosedAt(P, BVMUL)
  {
    StepHLoaded(P);
    StepClosed();
    FiveElements(A, B, RES, NN, K);
    IsClosed(P, MULT_STEP, [A, B, RES, NN, K], StepCode(), {A, B, RES, NN, K});
    MulLoaded(P);
  }

  lemma StepHLoaded(P: Program)
    requires Defines(P, MULT_STEP_K_H, [A, B, RES, CARRY, K], StepHCode())
    ensures ClosedAt(P, MULT_STEP_K_H)
  {
    StepHClosed();
    FiveElements(A, B, RES, CARRY, K);
    IsClosed(P, MULT_STEP_K_H, [A, B, RES, CARRY, K], StepHCode(), {A, B, RES, CARRY, K});
  }

  lemma MulLoaded(P: Program)
    requires Defines(P, BVMUL, [A, B, NN], MulCode())
    ensures ClosedAt(P, BVMUL)
  {
    MulClosed();
    IsClosed(P, BVMUL, [A, B, NN], MulCode(), {A, B, NN});
  }

  lemma FiveElements(a: Name, b: Name, c: Name, d: Name, e: Name)
    ensures {a, b, c, d, e} <= Elements([a, b, c, d, e])
  {
  }

  lemma AllClosed(P: Program)
    requires P.progs.Keys == Own() && ClosedAt(P, MPZ_SUB) && ClosedAt(P, REVERSE_HELP) && ClosedAt(P, REVERSEB)
    requires ClosedAt(P, AND_WITH_BIT) && ClosedAt(P, TOP_K_BITS) && ClosedAt(P, K_BIT)
    requires ClosedAt(P, MULT_STEP_K_H) && ClosedAt(P, MULT_STEP) && ClosedAt(P, BVMUL)
    ensures ClosedProgram(P) && NoFunctions(P)
  {
    forall f | f in P.progs ensures ClosedAt(P, f) { assert f in Own(); }
  }

  /** No program refers to a variable of another. */
  lemma LoadedClosed(P: Program)
    requires Loaded(P) && P.progs.Keys == Own()
    ensures ClosedProgram(P) && NoFunctions(P)
  {
    ListsLoaded(P);
    BitsLoaded(P);
    RowsLoaded(P);
    AllClosed(P);
  }

  lemma MulSome(a: Bits, b: Bits)
    requires Len(a) == Len(b) >= 1
    ensures BlastMul(a, b, Len(a)).Some? && Len(BlastMul(a, b, Len(a)).value) == Len(a)
  {
    var I := F.StandardExists(i => false, i => 0);
    BlastProofs.MulCorrect(I, a, b);
  }

  function MulCall(atom: F.Prop -> Value, a: Bits, b: Bits, n: int): Code {
    Node(Call(BVMUL), [Lit(OfBits(atom, a)), Lit(OfBits(atom, b)), Num(n)])
  }

  lemma MulCallGives(P: Program, k: nat, atom: F.Prop -> Value, a: Bits, b: Bits, n: int, env: Store)
    requires Loaded(P) && k > 2 * Len(a) + Len(b) + 5 + Rows(n, 0)
    ensures Gives(P, k, MulCall(atom, a, b, n), env, Maybe(atom, BlastMul(a, b, n)))
    ensures FreeVars(MulCall(atom, a, b, n)) == {}
  {
    var args := MulCall(atom, a, b, n).kids;
    GivesLit(P, k, OfBits(atom, a), env);
    GivesLit(P, k, OfBits(atom, b), env);
    GivesLit(P, k, VInt(n), env);
    MulRuns(P, k - 1, atom, a, b, n);
    GivesCall(P, k, BVMUL, args, MulArguments(atom, a, b, n), env, Maybe(atom, BlastMul(a, b, n)));
    WithinNode(Call(BVMUL), args, {});
  }

  lemma ShippedComes(P: Program, k: nat, e: Code, s: State, v: Value)
    requires ClosedProgram(P) && NoFunctions(P) && FreeVars(e) == {} && Gives(P, k, e, map[], Some(v))
    ensures Run(P, Shipped, k, e, false, s) == (Ok(v), s)
  {
    OnCells(P, k, e, s);
    assert Comes(Ev(P, k, e, s.(val := map[])), s.(val := map[]), Some(v));
  }

  /** The shipped interpreter on `(bblast_bvmul a b n)`, for lists of n >= 1
      formulas: a list whose number is the product mod 2^n, under every standard
      interpretation, and marks, cache and cells as before. */
  lemma ShippedMultiplies(P: Program, k: nat, atom: F.Prop -> Value, a: Bits, b: Bits, s: State) returns (r: Bits)
    requires Loaded(P) && P.progs.Keys == Own() && Len(a) == Len(b) >= 1 && k > 4 * Len(a) + 6
    ensures Run(P, Shipped, k, MulCall(atom, a, b, Len(a)), false, s) == (Ok(OfBits(atom, r)), s)
    ensures Len(r) == Len(a)
    ensures forall I: F.Interp {:trigger BlastProofs.Msb(I, r)} :: F.Standard(I) ==>
      BlastProofs.Msb(I, r) == (BlastProofs.Msb(I, a) * BlastProofs.Msb(I, b)) % N.Pow2(Len(a))
  {
    MulSome(a, b);
    r := BlastMul(a, b, Len(a)).value;
    LoadedClosed(P);
    MulCallGives(P, k, atom, a, b, Len(a), map[]);
    ShippedComes(P, k, MulCall(atom, a, b, Len(a)), s, OfBits(atom, r));
    forall I: F.Interp | F.Standard(I)
      ensures BlastProofs.Msb(I, r) == (BlastProofs.Msb(I, a) * BlastProofs.Msb(I, b)) % N.Pow2(Len(a)) {
      BlastProofs.MulCorrect(I, a, b);
    }
  }
}
