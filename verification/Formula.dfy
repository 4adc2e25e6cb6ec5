/** Formulas of tests/tests/smt.plf and the bit-vector terms and predicates of
    tests/tests/th_bv.plf, with their meaning in the theory of fixed-size
    bit-vectors of SMT-LIB. */
module Formula {
  import opened Numbers

  /** A bit-vector constant, most significant bit first. */
  datatype Bv = BvN | BvC(b: bool, rest: Bv)

  /** Raw terms; the leading `n` of every constructor is the declared width. */
  datatype RawTerm =
    | BvConst(n: int, bits: Bv)
    | BvVar(n: int, name: nat)
    | BvBitwise(n: int, op: BitOp, x: RawTerm, y: RawTerm)
    | BvNot(n: int, x: RawTerm)
    | BvNeg(n: int, x: RawTerm)
    | BvAdd(n: int, x: RawTerm, y: RawTerm)
    | BvMul(n: int, x: RawTerm, y: RawTerm)
    | BvConcat(n: int, m: int, m1: int, x: RawTerm, y: RawTerm)
    | BvExtract(n: int, i: int, j: int, m: int, x: RawTerm)
    | BvZeroExtend(n: int, k: int, m: int, x: RawTerm)
    | BvSignExtend(n: int, k: int, m: int, x: RawTerm)
    | BvComp(n: int, x: RawTerm, y: RawTerm)

  datatype BitOp = OpAnd | OpOr | OpXor

  function Width(t: RawTerm): int { if t.BvComp? then 1 else t.n }

  function BvLen(v: Bv): nat { if v.BvN? then 0 else 1 + BvLen(v.rest) }

  /** The sort discipline of SMT-LIB. */
  predicate WellSorted(t: RawTerm): (ok: bool)
    ensures ok ==> Width(t) >= 1
  {
    t.n >= 1 &&
    match t
    case BvConst(n, v) => BvLen(v) == n
    case BvVar(_, _) => true
    case BvBitwise(n, _, x, y) => WellSorted(x) && WellSorted(y) && Width(x) == n && Width(y) == n
    case BvNot(n, x) => WellSorted(x) && Width(x) == n
    case BvNeg(n, x) => WellSorted(x) && Width(x) == n
    case BvAdd(n, x, y) => WellSorted(x) && WellSorted(y) && Width(x) == n && Width(y) == n
    case BvMul(n, x, y) => WellSorted(x) && WellSorted(y) && Width(x) == n && Width(y) == n
    case BvConcat(n, m, m1, x, y) =>
      WellSorted(x) && WellSorted(y) && Width(x) == m && Width(y) == m1 && n == m + m1
    case BvExtract(n, i, j, m, x) => WellSorted(x) && Width(x) == m && 0 <= j <= i < m && n == i - j + 1
    case BvZeroExtend(n, k, m, x) => WellSorted(x) && Width(x) == m && k >= 0 && n == m + k
    case BvSignExtend(n, k, m, x) => WellSorted(x) && Width(x) == m && k >= 0 && n == m + k
    case BvComp(n, x, y) => WellSorted(x) && WellSorted(y) && Width(x) == n && Width(y) == n
  }

  type Term = t: RawTerm | WellSorted(t) witness BvVar(1, 0)

  datatype Formula =
    | True
    | False
    | Not(f: Formula)
    | And(l: Formula, r: Formula)
    | Or(l: Formula, r: Formula)
    | Impl(l: Formula, r: Formula)
    | Iff(l: Formula, r: Formula)
    | Xor(l: Formula, r: Formula)
    | Ifte(c: Formula, t: Formula, e: Formula)
    | Atom(a: Prop)

  /** Atomic formulas: opaque ones, and those of the bit-vector theory. */
  datatype Prop =
    | Opaque(i: nat)
    | BitOf(name: nat, pos: int)
    | BvEq(s: Term, t: Term)
    | BvUlt(s: Term, t: Term)
    | BvSlt(s: Term, t: Term)

  /** A truth value for every formula and a number for every bit-vector
      variable. The number is unbounded; a term of width n sees its n low bits. */
  datatype Interp = Interp(holds: Formula -> bool, bv: nat -> nat)

  function ConstValue(v: Bv): nat {
    if v.BvN? then 0 else (if v.b then Pow2(BvLen(v.rest)) else 0) + ConstValue(v.rest)
  }

  predicate OnBits(op: BitOp, a: bool, b: bool) {
    match op
    case OpAnd => a && b
    case OpOr => a || b
    case OpXor => a != b
  }

  /** The n-bit number whose bits combine those of x and y one by one. */
  function Bitwise(op: BitOp, n: nat, x: nat, y: nat): nat {
    if n == 0 then 0
    else
      (if OnBits(op, BitAt(x, n - 1), BitAt(y, n - 1)) then Pow2(n - 1) else 0)
      + Bitwise(op, n - 1, x, y)
  }

  /** The two's complement reading of an n-bit number. */
  function Signed(n: nat, x: nat): int
    requires n >= 1
  {
    if x < Pow2(n - 1) then x else x - Pow2(n)
  }

  /** An m-bit number above an m1-bit number. */
  function Concatenated(m: nat, m1: nat, x: nat, y: nat): (r: nat)
    requires x < Pow2(m) && y < Pow2(m1)
    ensures r < Pow2(m + m1)
  {
    Pow2Add(m, m1);
    MulBound(x, Pow2(m), y, Pow2(m1));
    x * Pow2(m1) + y
  }

  /** The n-bit number with the signed reading of the m-bit number x. */
  function SignExtended(m: nat, n: nat, x: nat): (r: nat)
    requires 1 <= m <= n && x < Pow2(m)
    ensures r < Pow2(n)
  {
    Pow2Monotone(m, n);
    if Signed(m, x) < 0 then Signed(m, x) + Pow2(n) else x
  }

  function Value(bv: nat -> nat, t: RawTerm): (v: nat)
    requires WellSorted(t)
    ensures v < Pow2(Width(t))
  {
    match t
    case BvConst(_, v) => ConstBounded(v); ConstValue(v)
    case BvVar(n, x) => bv(x) % Pow2(n)
    case BvBitwise(n, op, x, y) =>
      BitwiseBounded(op, n, Value(bv, x), Value(bv, y));
      Bitwise(op, n, Value(bv, x), Value(bv, y))
    case BvNot(n, x) => Pow2(n) - 1 - Value(bv, x)
    case BvNeg(n, x) => (Pow2(n) - Value(bv, x)) % Pow2(n)
    case BvAdd(n, x, y) => (Value(bv, x) + Value(bv, y)) % Pow2(n)
    case BvMul(n, x, y) => (Value(bv, x) * Value(bv, y)) % Pow2(n)
    case BvConcat(_, m, m1, x, y) => Concatenated(m, m1, Value(bv, x), Value(bv, y))
    case BvExtract(n, _, j, _, x) => Value(bv, x) / Pow2(j) % Pow2(n)
    case BvZeroExtend(n, _, m, x) => Pow2Monotone(m, n); Value(bv, x)
    case BvSignExtend(n, _, m, x) => SignExtended(m, n, Value(bv, x))
    case BvComp(_, x, y) => if Value(bv, x) == Value(bv, y) then 1 else 0
  }

  lemma {:induction false} ConstBounded(v: Bv)
    ensures ConstValue(v) < Pow2(BvLen(v))
  {
    if v.BvC? { ConstBounded(v.rest); }
  }

  lemma {:induction false} BitwiseBounded(op: BitOp, n: nat, x: nat, y: nat)
    ensures Bitwise(op, n, x, y) < Pow2(n)
  {
    if n > 0 { BitwiseBounded(op, n - 1, x, y); }
  }

  /** The theory's own meaning of an atom. */
  predicate TheoryTruth(bv: nat -> nat, a: Prop)
    requires !a.Opaque?
  {
    match a
    case BitOf(x, i) => i >= 0 && BitAt(bv(x), i)
    case BvEq(s, t) => Value(bv, s) == Value(bv, t)
    case BvUlt(s, t) => Value(bv, s) < Value(bv, t)
    case BvSlt(s, t) => Signed(Width(s), Value(bv, s)) < Signed(Width(t), Value(bv, t))
  }

  /** The interpretations of SMT-LIB: truth respects the connectives, and the
      theory atoms have their own meaning. */
  ghost predicate Standard(I: Interp) {
    && I.holds(True) && !I.holds(False)
    && (forall f :: I.holds(Not(f)) <==> !I.holds(f))
    && (forall f, g :: I.holds(And(f, g)) <==> I.holds(f) && I.holds(g))
    && (forall f, g :: I.holds(Or(f, g)) <==> I.holds(f) || I.holds(g))
    && (forall f, g :: I.holds(Impl(f, g)) <==> (I.holds(f) ==> I.holds(g)))
    && (forall f, g :: I.holds(Iff(f, g)) <==> (I.holds(f) <==> I.holds(g)))
    && (forall f, g :: I.holds(Xor(f, g)) <==> I.holds(f) != I.holds(g))
    && (forall c, f, g :: I.holds(Ifte(c, f, g)) <==> if I.holds(c) then I.holds(f) else I.holds(g))
    && (forall a: Prop :: !a.Opaque? ==> (I.holds(Atom(a)) <==> TheoryTruth(I.bv, a)))
  }

  /** Evaluation from the opaque atoms up. */
  predicate Eval(opaq: nat -> bool, bv: nat -> nat, f: Formula) {
    match f
    case True => true
    case False => false
    case Not(g) => !Eval(opaq, bv, g)
    case And(l, r) => Eval(opaq, bv, l) && Eval(opaq, bv, r)
    case Or(l, r) => Eval(opaq, bv, l) || Eval(opaq, bv, r)
    case Impl(l, r) => Eval(opaq, bv, l) ==> Eval(opaq, bv, r)
    case Iff(l, r) => Eval(opaq, bv, l) <==> Eval(opaq, bv, r)
    case Xor(l, r) => Eval(opaq, bv, l) != Eval(opaq, bv, r)
    case Ifte(c, t, e) => if Eval(opaq, bv, c) then Eval(opaq, bv, t) else Eval(opaq, bv, e)
    case Atom(Opaque(i)) => opaq(i)
    case Atom(a) => TheoryTruth(bv, a)
  }

  /** Any choice for the opaque atoms and the variables extends to a standard
      interpretation. */
  lemma StandardExists(opaq: nat -> bool, bv: nat -> nat) returns (I: Interp)
    ensures Standard(I) && I.bv == bv && forall i :: I.holds(Atom(Opaque(i))) <==> opaq(i)
  {
    I := Interp(f => Eval(opaq, bv, f), bv);
    EvalConnectives(I, opaq, bv);
    EvalAtoms(I, opaq, bv);
  }

  lemma EvalConnectives(I: Interp, opaq: nat -> bool, bv: nat -> nat)
    requires forall f :: I.holds(f) <==> Eval(opaq, bv, f)
    ensures I.holds(True) && !I.holds(False)
    ensures forall f :: I.holds(Not(f)) <==> !I.holds(f)
    ensures forall f, g :: I.holds(And(f, g)) <==> I.holds(f) && I.holds(g)
    ensures forall f, g :: I.holds(Or(f, g)) <==> I.holds(f) || I.holds(g)
    ensures forall f, g :: I.holds(Impl(f, g)) <==> (I.holds(f) ==> I.holds(g))
    ensures forall f, g :: I.holds(Iff(f, g)) <==> (I.holds(f) <==> I.holds(g))
    ensures forall f, g :: I.holds(Xor(f, g)) <==> I.holds(f) != I.holds(g)
    ensures forall c, f, g :: I.holds(Ifte(c, f, g)) <==> if I.holds(c) then I.holds(f) else I.holds(g)
  {
  }

  lemma EvalAtoms(I: Interp, opaq: nat -> bool, bv: nat -> nat)
    requires I.bv == bv && forall f :: I.holds(f) <==> Eval(opaq, bv, f)
    ensures forall a: Prop :: !a.Opaque? ==> (I.holds(Atom(a)) <==> TheoryTruth(I.bv, a))
    ensures forall i :: I.holds(Atom(Opaque(i))) <==> opaq(i)
  {
  }

  /** And to one only: the opaque atoms and the variables decide every formula. */
  lemma {:induction false} StandardUnique(I: Interp, I': Interp, f: Formula)
    requires Standard(I) && Standard(I') && I.bv == I'.bv
    requires forall i :: I.holds(Atom(Opaque(i))) <==> I'.holds(Atom(Opaque(i)))
    ensures I.holds(f) <==> I'.holds(f)
  {
    match f
    case True =>
    case False =>
    case Not(g) => StandardUnique(I, I', g);
    case And(l, r) => StandardUnique(I, I', l); StandardUnique(I, I', r);
    case Or(l, r) => StandardUnique(I, I', l); StandardUnique(I, I', r);
    case Impl(l, r) => StandardUnique(I, I', l); StandardUnique(I, I', r);
    case Iff(l, r) => StandardUnique(I, I', l); StandardUnique(I, I', r);
    case Xor(l, r) => StandardUnique(I, I', l); StandardUnique(I, I', r);
    case Ifte(c, l, r) => StandardUnique(I, I', c); StandardUnique(I, I', l); StandardUnique(I, I', r);
    case Atom(_) =>
  }
}
