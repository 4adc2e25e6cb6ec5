/** The remaining bit-blasting programs: leaves, bitwise operators, reshaping
    and the predicates, against the SMT-LIB meaning. */
module BlastShapes {
  import opened Wrappers
  import opened Numbers
  import opened Formula
  import opened Blast
  import opened BlastProofs

  lemma BitAtLow(x: nat, top: bool, m: nat, i: nat)
    requires i < m
    ensures BitAt((if top then Pow2(m) else 0) + x, i) == BitAt(x, i)
  {
    DropTop(x, top, m, i);
    HalfWithTop(Drop(x, i), top, m - i);
  }

  lemma BitAtTop(x: nat, top: bool, m: nat)
    requires x < Pow2(m)
    ensures BitAt((if top then Pow2(m) else 0) + x, m) == top
  {
    DropTop(x, top, m, m);
    DropSmall(x, m);
  }

  lemma {:induction false} BitwiseLow(op: BitOp, m: nat, n: nat, x: nat, y: nat, xTop: bool, yTop: bool)
    requires m <= n
    ensures Bitwise(op, m, (if xTop then Pow2(n) else 0) + x, (if yTop then Pow2(n) else 0) + y)
            == Bitwise(op, m, x, y)
  {
    if m > 0 {
      BitwiseLow(op, m - 1, n, x, y, xTop, yTop);
      BitAtLow(x, xTop, n, m - 1);
      BitAtLow(y, yTop, n, m - 1);
    }
  }

  lemma BitwiseStep(op: BitOp, n: nat, x: nat, y: nat, xTop: bool, yTop: bool, x': nat, y': nat)
    requires x < Pow2(n) && x' == (if xTop then Pow2(n) else 0) + x
    requires y < Pow2(n) && y' == (if yTop then Pow2(n) else 0) + y
    ensures Bitwise(op, n + 1, x', y') == (if OnBits(op, xTop, yTop) then Pow2(n) else 0) + Bitwise(op, n, x, y)
  {
    BitwiseLow(op, n, n, x, y, xTop, yTop);
    BitAtTop(x, xTop, n);
    BitAtTop(y, yTop, n);
  }

  lemma OpFormulaHolds(I: Interp, op: BitOp, f: Formula, g: Formula)
    requires Standard(I)
    ensures I.holds(OpFormula(op, f, g)) <==> OnBits(op, I.holds(f), I.holds(g))
  {
  }

  lemma {:induction false} BitwiseLength(op: BitOp, x: Bits, y: Bits)
    ensures BlastBitwise(op, x, y).Some? <==> Len(x) == Len(y)
    ensures Len(x) == Len(y) ==> Len(BlastBitwise(op, x, y).value) == Len(x)
  {
    if x.BbltC? && y.BbltC? { BitwiseLength(op, x.rest, y.rest); }
  }

  lemma {:induction false} BitwiseValue(I: Interp, op: BitOp, x: Bits, y: Bits)
    requires Standard(I) && Len(x) == Len(y) && BlastBitwise(op, x, y).Some?
    ensures Msb(I, BlastBitwise(op, x, y).value) == Bitwise(op, Len(x), Msb(I, x), Msb(I, y))
  {
    if x.BbltC? {
      var n, u, v := Len(x.rest), Msb(I, x.rest), Msb(I, y.rest);
      BitwiseLength(op, x.rest, y.rest);
      BitwiseValue(I, op, x.rest, y.rest);
      OpFormulaHolds(I, op, x.bit, y.bit);
      BitwiseStep(op, n, u, v, I.holds(x.bit), I.holds(y.bit), Msb(I, x), Msb(I, y));
      assert BlastBitwise(op, x, y).value == BbltC(OpFormula(op, x.bit, y.bit), BlastBitwise(op, x.rest, y.rest).value);
    }
  }

  lemma BitwiseCorrect(I: Interp, op: BitOp, x: Bits, y: Bits)
    requires Standard(I)
    ensures BlastBitwise(op, x, y).Some? <==> Len(x) == Len(y)
    ensures Len(x) == Len(y) ==> Len(BlastBitwise(op, x, y).value) == Len(x)
    ensures Len(x) == Len(y) ==> Msb(I, BlastBitwise(op, x, y).value) == Bitwise(op, Len(x), Msb(I, x), Msb(I, y))
  {
    BitwiseLength(op, x, y);
    if Len(x) == Len(y) { BitwiseValue(I, op, x, y); }
  }

  // ----- leaves -----

  lemma {:induction false} ConstCorrect(I: Interp, v: Bv, n: int)
    requires Standard(I)
    ensures BlastConst(v, n).Some? <==> BvLen(v) == if n < 0 then 0 else n + 1
    ensures BlastConst(v, n).Some? ==> Len(BlastConst(v, n).value) == BvLen(v)
    ensures BlastConst(v, n).Some? ==> Msb(I, BlastConst(v, n).value) == ConstValue(v)
  {
    if v.BvC? && n >= 0 { ConstCorrect(I, v.rest, n - 1); }
  }

  lemma {:induction false} VarCorrect(I: Interp, x: nat, n: int)
    requires Standard(I)
    requires n >= -1
    ensures Len(BlastVar(x, n)) == n + 1
    ensures Msb(I, BlastVar(x, n)) == Low(I.bv(x), n + 1)
  {
    if n >= 0 {
      VarCorrect(I, x, n - 1);
      assert I.holds(Atom(BitOf(x, n))) <==> TheoryTruth(I.bv, BitOf(x, n));
      LowStep(I.bv(x), n);
    }
  }

  // ----- reshaping -----

  lemma {:induction false} ConcatShifts(I: Interp, x: Bits, y: Bits)
    ensures Len(BlastConcat(x, y)) == Len(x) + Len(y)
    ensures Msb(I, BlastConcat(x, y)) == Shift(Len(y), Msb(I, x)) + Msb(I, y)
    decreases Len(x) + Len(y)
  {
    if x.BbltC? {
      ConcatShifts(I, x.rest, y);
      ShiftTop(Len(y), I.holds(x.bit), Len(x.rest), Msb(I, x.rest));
    } else {
      ConcatNothing(I, x, y);
      ShiftIsProduct(Len(y), 0);
    }
  }

  lemma {:induction false} ConcatNothing(I: Interp, x: Bits, y: Bits)
    requires !x.BbltC?
    ensures BlastConcat(x, y) == y
  {
    if y.BbltC? { ConcatNothing(I, x, y.rest); }
  }

  lemma {:induction false} ConcatCorrect(I: Interp, x: Bits, y: Bits)
    ensures Len(BlastConcat(x, y)) == Len(x) + Len(y)
    ensures Msb(I, BlastConcat(x, y)) == Msb(I, x) * Pow2(Len(y)) + Msb(I, y)
  {
    ConcatShifts(I, x, y);
    ShiftIsProduct(Len(y), Msb(I, x));
  }

  /** The bits from position n down to j, where n is at most i. */
  lemma {:induction false} ExtractTail(I: Interp, x: Bits, i: int, j: nat, n: int)
    requires Len(x) == n + 1 && n <= i
    ensures Len(BlastExtractRec(x, i, j, n)) == if n < j then 0 else n - j + 1
    ensures Msb(I, BlastExtractRec(x, i, j, n)) == Drop(Msb(I, x), j)
  {
    if n < j {
      Pow2Monotone(n + 1, j);
      DropSmall(Msb(I, x), j);
    } else {
      ExtractTail(I, x.rest, i, j, n - 1);
      DropTop(Msb(I, x.rest), I.holds(x.bit), n, j);
    }
  }

  /** Bits i down to j of an unsigned number of any width above i. */
  lemma {:induction false} ExtractSlices(I: Interp, x: Bits, i: int, j: nat, n: int)
    requires Len(x) == n + 1 && j <= i <= n
    ensures Len(BlastExtractRec(x, i, j, n)) == i - j + 1
    ensures Msb(I, BlastExtractRec(x, i, j, n)) == Low(Drop(Msb(I, x), j), i - j + 1)
  {
    if n == i {
      ExtractTail(I, x, i, j, n);
      LowSmall(Msb(I, BlastExtractRec(x, i, j, n)), i - j + 1);
    } else {
      ExtractSlices(I, x.rest, i, j, n - 1);
      DropTop(Msb(I, x.rest), I.holds(x.bit), n, j);
      LowTop(Drop(Msb(I, x.rest), j), I.holds(x.bit), n - j, i - j + 1);
    }
  }

  lemma {:induction false} ExtractCorrect(I: Interp, x: Bits, i: int, j: nat)
    requires j <= i < Len(x)
    ensures Len(BlastExtract(x, i, j, Len(x))) == i - j + 1
    ensures Msb(I, BlastExtract(x, i, j, Len(x))) == Msb(I, x) / Pow2(j) % Pow2(i - j + 1)
  {
    ExtractSlices(I, x, i, j, Len(x) - 1);
    DropIsQuotient(Msb(I, x), j);
    LowIsRemainder(Drop(Msb(I, x), j), i - j + 1);
  }

  lemma {:induction false} ExtendValue(I: Interp, x: Bits, i: int, b: Formula)
    requires i >= -1
    ensures Len(ExtendRec(x, i, b)) == Len(x) + i + 1
    ensures Msb(I, ExtendRec(x, i, b))
            == Msb(I, x) + if I.holds(b) then Pow2(Len(x) + i + 1) - Pow2(Len(x)) else 0
  {
    if i >= 0 {
      var tail := ExtendRec(x, i - 1, b);
      ExtendValue(I, x, i - 1, b);
      assert ExtendRec(x, i, b) == BbltC(b, tail) && Len(tail) == Len(x) + i;
      assert Pow2(Len(x) + i + 1) == 2 * Pow2(Len(x) + i);
    }
  }

  /** A sign bit above `low`, and k more copies of it. */
  lemma SignBits(n: nat, k: nat, sign: bool, low: nat)
    requires n >= 1 && low < Pow2(n - 1)
    ensures var x := (if sign then Pow2(n - 1) else 0) + low; var r := x + if sign then Pow2(n + k) - Pow2(n) else 0;
      x < Pow2(n) && 0 <= r < Pow2(n + k) && Signed(n + k, r) == Signed(n, x) && r == SignExtended(n, n + k, x)
  {
    Pow2Monotone(n, n + k);
    Pow2Monotone(n - 1, n + k - 1);
    assert Pow2(n) == 2 * Pow2(n - 1) && Pow2(n + k) == 2 * Pow2(n + k - 1);
  }

  lemma SignExtendValue(I: Interp, x: Bits, k: nat)
    requires Len(x) >= 1
    ensures BlastSignExtend(x, k).Some? && Len(BlastSignExtend(x, k).value) == Len(x) + k
    ensures Msb(I, BlastSignExtend(x, k).value)
            == Msb(I, x) + if I.holds(x.bit) then Pow2(Len(x) + k) - Pow2(Len(x)) else 0
  {
    ExtendValue(I, x, k - 1, x.bit);
  }

  /** Sign extension keeps the two's complement reading. */
  lemma SignExtendCorrect(I: Interp, x: Bits, k: nat)
    requires Len(x) >= 1
    ensures BlastSignExtend(x, k).Some? && Len(BlastSignExtend(x, k).value) == Len(x) + k
    ensures Signed(Len(x) + k, Msb(I, BlastSignExtend(x, k).value)) == Signed(Len(x), Msb(I, x))
    ensures Msb(I, BlastSignExtend(x, k).value) == SignExtended(Len(x), Len(x) + k, Msb(I, x))
  {
    var n, sign, low := Len(x), I.holds(x.bit), Msb(I, x.rest);
    SignExtendValue(I, x, k);
    assert n - 1 == Len(x.rest) && Msb(I, x) == (if sign then Pow2(n - 1) else 0) + low;
    SignBits(n, k, sign, low);
  }

  // ----- predicates -----

  lemma {:induction false} UltCorrect(I: Interp, x: Bits, y: Bits, n: int)
    requires Standard(I)
    requires Len(x) == Len(y) == n + 1 && n >= 0
    ensures BlastUlt(x, y, n).Some?
    ensures I.holds(BlastUlt(x, y, n).value) <==> Msb(I, x) < Msb(I, y)
  {
    var strict := And(Not(x.bit), y.bit);
    assert I.holds(strict) <==> !I.holds(x.bit) && I.holds(y.bit) by { assert I.holds(Not(x.bit)) == !I.holds(x.bit); }
    if n > 0 {
      UltCorrect(I, x.rest, y.rest, n - 1);
      var rest := BlastUlt(x.rest, y.rest, n - 1).value;
      assert I.holds(And(Iff(x.bit, y.bit), rest)) <==> I.holds(x.bit) == I.holds(y.bit) && I.holds(rest) by {
        assert I.holds(Iff(x.bit, y.bit)) <==> (I.holds(x.bit) <==> I.holds(y.bit));
      }
    }
  }

  lemma {:induction false} SltCorrect(I: Interp, x: Bits, y: Bits)
    requires Standard(I)
    requires Len(x) == Len(y) >= 1
    ensures BlastSlt(x, y, Len(x)).Some?
    ensures I.holds(BlastSlt(x, y, Len(x)).value) <==> Signed(Len(x), Msb(I, x)) < Signed(Len(y), Msb(I, y))
  {
    var n := Len(x);
    var strict := And(x.bit, Not(y.bit));
    assert I.holds(strict) <==> I.holds(x.bit) && !I.holds(y.bit) by { assert I.holds(Not(y.bit)) == !I.holds(y.bit); }
    if n > 1 {
      UltCorrect(I, x.rest, y.rest, n - 2);
      var rest := BlastUlt(x.rest, y.rest, n - 2).value;
      assert I.holds(And(Iff(x.bit, y.bit), rest)) <==> I.holds(x.bit) == I.holds(y.bit) && I.holds(rest) by {
        assert I.holds(Iff(x.bit, y.bit)) <==> (I.holds(x.bit) <==> I.holds(y.bit));
      }
    }
  }

  lemma {:induction false} EqRecCorrect(I: Interp, x: Bits, y: Bits, f: Formula)
    requires Standard(I)
    requires Len(x) == Len(y)
    ensures BlastEqRec(x, y, f).Some?
    ensures I.holds(BlastEqRec(x, y, f).value) <==> Msb(I, x) == Msb(I, y) && I.holds(f)
  {
    if x.BbltC? {
      EqRecCorrect(I, x.rest, y.rest, And(Iff(x.bit, y.bit), f));
      assert I.holds(Iff(x.bit, y.bit)) <==> (I.holds(x.bit) <==> I.holds(y.bit));
    }
  }

  lemma {:induction false} EqCorrect(I: Interp, x: Bits, y: Bits)
    requires Standard(I)
    requires Len(x) == Len(y) >= 1
    ensures BlastEq(x, y).Some?
    ensures I.holds(BlastEq(x, y).value) <==> Msb(I, x) == Msb(I, y)
  {
    EqRecCorrect(I, x.rest, y.rest, Iff(x.bit, y.bit));
  }
}
