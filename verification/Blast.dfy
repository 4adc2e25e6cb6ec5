/** The bit-blasting programs of tests/tests/th_bv_bitblast.plf. A list of
    formulas stands for a number, most significant bit first unless the program
    says otherwise; `None` is a failing side condition. */
module Blast {
  import opened Wrappers
  import opened Numbers
  import opened Formula

  datatype Bits = BbltN | BbltC(bit: Formula, rest: Bits)

  function Len(b: Bits): nat { if b.BbltN? then 0 else 1 + Len(b.rest) }

  // ----- leaves and structure -----

  function BlastConst(v: Bv, n: int): Option<Bits> {
    if n < 0 then (if v.BvN? then Some(BbltN) else None)
    else match v
      case BvN => None
      case BvC(b, v') => var r :- BlastConst(v', n - 1); Some(BbltC(if b then True else False, r))
  }

  function BlastVar(x: nat, n: int): Bits
    decreases if n < 0 then 0 else n + 1
  {
    if n < 0 then BbltN else BbltC(Atom(BitOf(x, n)), BlastVar(x, n - 1))
  }

  function BlastConcat(x: Bits, y: Bits): Bits
    decreases Len(x) + Len(y)
  {
    match x
    case BbltN => (match y case BbltC(fy, y') => BbltC(fy, BlastConcat(x, y')) case BbltN => BbltN)
    case BbltC(bx, x') => BbltC(bx, BlastConcat(x', y))
  }

  function BlastExtractRec(x: Bits, i: int, j: int, n: int): Bits {
    match x
    case BbltN => BbltN
    case BbltC(bx, x') =>
      if j - n - 1 < 0 then
        if n - i - 1 < 0 then BbltC(bx, BlastExtractRec(x', i, j, n - 1))
        else BlastExtractRec(x', i, j, n - 1)
      else BbltN
  }

  function BlastExtract(x: Bits, i: int, j: int, n: int): Bits { BlastExtractRec(x, i, j, n - 1) }

  function ExtendRec(x: Bits, i: int, b: Formula): Bits
    decreases if i < 0 then 0 else i + 1
  {
    if i < 0 then x else BbltC(b, ExtendRec(x, i - 1, b))
  }

  function BlastZeroExtend(x: Bits, i: int): Bits { ExtendRec(x, i - 1, False) }

  function BlastSignExtend(x: Bits, i: int): Option<Bits> {
    match x
    case BbltN => None
    case BbltC(xb, _) => Some(ExtendRec(x, i - 1, xb))
  }

  function ReverseHelp(x: Bits, acc: Bits): Bits {
    match x
    case BbltN => acc
    case BbltC(xi, x') => ReverseHelp(x', BbltC(xi, acc))
  }

  function ReverseB(x: Bits): Bits { ReverseHelp(x, BbltN) }

  // ----- bitwise operators -----

  function OpFormula(op: BitOp, f: Formula, g: Formula): Formula {
    match op
    case OpAnd => And(f, g)
    case OpOr => Or(f, g)
    case OpXor => Xor(f, g)
  }

  /** `bblast_bvand`, `bblast_bvor` and `bblast_bvxor`. */
  function BlastBitwise(op: BitOp, x: Bits, y: Bits): Option<Bits> {
    match x
    case BbltN => if y.BbltN? then Some(BbltN) else None
    case BbltC(bx, x') =>
      match y
      case BbltN => None
      case BbltC(fy, y') => var r :- BlastBitwise(op, x', y'); Some(BbltC(OpFormula(op, bx, fy), r))
  }

  function BlastNot(x: Bits): Bits {
    match x
    case BbltN => BbltN
    case BbltC(bx, x') => BbltC(Not(bx), BlastNot(x'))
  }

  // ----- adder and negation -----

  function BlastAddCarry(a: Bits, b: Bits, carry: Formula): Option<Formula> {
    match a
    case BbltN => if b.BbltN? then Some(carry) else None
    case BbltC(ai, a') =>
      match b
      case BbltN => None
      case BbltC(bi, b') =>
        var c :- BlastAddCarry(a', b', carry);
        Some(Or(And(ai, bi), And(Xor(ai, bi), c)))
  }

  function BlastAdd(a: Bits, b: Bits, carry: Formula): Option<Bits> {
    match a
    case BbltN => if b.BbltN? then Some(BbltN) else None
    case BbltC(ai, a') =>
      match b
      case BbltN => None
      case BbltC(bi, b') =>
        var c :- BlastAddCarry(a', b', carry);
        var r :- BlastAdd(a', b', carry);
        Some(BbltC(Xor(Xor(ai, bi), c), r))
  }

  /** The program does not terminate on a negative number; it yields nothing. */
  function BlastZero(n: int): Option<Bits> {
    if n < 0 then None
    else if n == 0 then Some(BbltN)
    else var r :- BlastZero(n - 1); Some(BbltC(False, r))
  }

  function BlastNeg(x: Bits, n: int): Option<Bits> {
    var zero :- BlastZero(n);
    BlastAdd(BlastNot(x), zero, True)
  }

  // ----- shift-add multiplier: these lists start with the least significant bit -----

  function TopKBits(a: Bits, k: int): (r: Option<Bits>)
    ensures k < 0 ==> r.None?
  {
    if k == 0 then Some(BbltN)
    else match a
      case BbltN => None
      case BbltC(ai, a') => var r :- TopKBits(a', k - 1); Some(BbltC(ai, r))
  }

  function KBit(a: Bits, k: int): Option<Formula> {
    if k < 0 then None
    else match a
      case BbltN => None
      case BbltC(ai, a') => if k == 0 then Some(ai) else KBit(a', k - 1)
  }

  function AndWithBit(a: Bits, bt: Formula): Bits {
    match a
    case BbltN => BbltN
    case BbltC(ai, a') => BbltC(And(bt, ai), AndWithBit(a', bt))
  }

  /** Adds b, shifted by k places, to a; the sum is pushed in front of res, so
      that it comes out with the most significant bit first. */
  function MultStepKH(a: Bits, b: Bits, res: Bits, carry: Formula, k: int): Option<Bits> {
    match a
    case BbltN => if b.BbltN? then Some(res) else None
    case BbltC(ai, a') =>
      match b
      case BbltN => None
      case BbltC(bi, b') =>
        if k - 1 < 0 then
          var carryOut := Or(And(ai, bi), And(Xor(ai, bi), carry));
          var curr := Xor(Xor(ai, bi), carry);
          MultStepKH(a', b', BbltC(curr, res), carryOut, k - 1)
        else
          MultStepKH(a', b, BbltC(ai, res), carry, k - 1)
  }

  function MultStep(a: Bits, b: Bits, res: Bits, n: int, k: int): Option<Bits>
    decreases if n - k < 0 then 0 else n - k + 1
  {
    var k' := n - k;
    var ak :- TopKBits(a, k');
    var bk :- KBit(b, k);
    var b' := AndWithBit(ak, bk);
    var res' :- MultStepKH(res, b', BbltN, False, k);
    if k' - 1 == 0 then Some(res') else MultStep(a, b, ReverseB(res'), n, k + 1)
  }

  function BlastMul(a: Bits, b: Bits, n: int): Option<Bits> {
    var ar := ReverseB(a);
    var br := ReverseB(b);
    var b0 :- KBit(br, 0);
    var res := AndWithBit(ar, b0);
    if n - 1 == 0 then Some(res) else MultStep(ar, br, res, n, 1)
  }

  // ----- predicates -----

  function BlastEqRec(x: Bits, y: Bits, f: Formula): Option<Formula> {
    match x
    case BbltN => if y.BbltN? then Some(f) else None
    case BbltC(fx, x') =>
      match y
      case BbltN => None
      case BbltC(fy, y') => BlastEqRec(x', y', And(Iff(fx, fy), f))
  }

  function BlastEq(x: Bits, y: Bits): Option<Formula> {
    if x.BbltC? && y.BbltC? then BlastEqRec(x.rest, y.rest, Iff(x.bit, y.bit)) else None
  }

  function BlastComp(x: Bits, y: Bits): Option<Bits> {
    var f :- BlastEq(x, y);
    Some(BbltC(f, BbltN))
  }

  function BlastUlt(x: Bits, y: Bits, n: int): Option<Formula> {
    if x.BbltN? || y.BbltN? then None
    else
      var strict := And(Not(x.bit), y.bit);
      if n == 0 then Some(strict)
      else
        var rest :- BlastUlt(x.rest, y.rest, n - 1);
        Some(Or(And(Iff(x.bit, y.bit), rest), strict))
  }

  function BlastSlt(x: Bits, y: Bits, n: int): Option<Formula> {
    if x.BbltN? || y.BbltN? then None
    else
      var strict := And(x.bit, Not(y.bit));
      if n - 1 == 0 then Some(strict)
      else
        var rest :- BlastUlt(x.rest, y.rest, n - 2);
        Some(Or(And(Iff(x.bit, y.bit), rest), strict))
  }
}
