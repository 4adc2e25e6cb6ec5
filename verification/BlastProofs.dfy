/** The bit-blasting programs against integer arithmetic modulo powers of two,
    for every width, every list of formulas and every interpretation. */
module BlastProofs {
  import opened Wrappers
  import opened Numbers
  import opened Formula
  import opened Blast

  function Bit(I: Interp, f: Formula): nat { if I.holds(f) then 1 else 0 }

  /** The number a list stands for, most significant bit first. */
  function Msb(I: Interp, b: Bits): (v: nat)
    ensures v < Pow2(Len(b))
  {
    if b.BbltN? then 0
    else (if I.holds(b.bit) then Pow2(Len(b.rest)) else 0) + Msb(I, b.rest)
  }

  /** The number a list stands for, least significant bit first. */
  function Lsb(I: Interp, b: Bits): (v: nat)
    ensures v < Pow2(Len(b))
  {
    if b.BbltN? then 0 else Bit(I, b.bit) + 2 * Lsb(I, b.rest)
  }

  // ----- reversal -----

  lemma {:induction false} ReverseHelpValue(I: Interp, x: Bits, acc: Bits)
    ensures Len(ReverseHelp(x, acc)) == Len(x) + Len(acc)
    ensures Lsb(I, ReverseHelp(x, acc)) == Msb(I, x) + Shift(Len(x), Lsb(I, acc))
  {
    if x.BbltC? {
      ReverseHelpValue(I, x.rest, BbltC(x.bit, acc));
      ShiftBit(Len(x.rest), I.holds(x.bit), Lsb(I, acc));
    }
  }

  lemma ShiftBit(k: nat, bit: bool, x: nat)
    ensures Shift(k, (if bit then 1 else 0) + 2 * x) == (if bit then Pow2(k) else 0) + Shift(k + 1, x)
  {
    ShiftTop(k, bit, 0, 2 * x);
    ShiftDouble(k, x);
  }

  lemma {:induction false} ReverseTwice(x: Bits, acc: Bits)
    ensures ReverseB(ReverseHelp(x, acc)) == ReverseHelp(acc, x)
  {
    if x.BbltC? { ReverseTwice(x.rest, BbltC(x.bit, acc)); }
  }

  /** Reversal swaps the two readings and undoes itself. */
  lemma {:induction false} ReverseCorrect(I: Interp, x: Bits)
    ensures Len(ReverseB(x)) == Len(x)
    ensures Lsb(I, ReverseB(x)) == Msb(I, x) && Msb(I, ReverseB(x)) == Lsb(I, x)
    ensures ReverseB(ReverseB(x)) == x
  {
    ReverseTwice(x, BbltN);
    ReverseHelpValue(I, x, BbltN);
    ReverseHelpValue(I, ReverseB(x), BbltN);
    ShiftZero(Len(x));
  }

  // ----- ripple-carry adder -----

  function SumBit(x: Formula, y: Formula, c: Formula): Formula { Xor(Xor(x, y), c) }

  function CarryBit(x: Formula, y: Formula, c: Formula): Formula { Or(And(x, y), And(Xor(x, y), c)) }

  /** One full adder. */
  lemma FullAdder(I: Interp, x: Formula, y: Formula, c: Formula)
    requires Standard(I)
    ensures Bit(I, x) + Bit(I, y) + Bit(I, c) == Bit(I, SumBit(x, y, c)) + 2 * Bit(I, CarryBit(x, y, c))
  {
    assert I.holds(Xor(x, y)) <==> I.holds(x) != I.holds(y);
    assert I.holds(And(Xor(x, y), c)) <==> I.holds(x) != I.holds(y) && I.holds(c);
    assert I.holds(And(x, y)) <==> I.holds(x) && I.holds(y);
  }

  function If(b: bool, p: nat): nat { if b then p else 0 }

  lemma FullAdderAt(I: Interp, x: Formula, y: Formula, c: Formula, p: nat)
    requires Standard(I)
    ensures If(I.holds(x), p) + If(I.holds(y), p) + If(I.holds(c), p)
            == If(I.holds(SumBit(x, y, c)), p) + If(I.holds(CarryBit(x, y, c)), 2 * p)
  {
    FullAdder(I, x, y, c);
  }

  /** Nothing is lost: the sum and the carry out together are a + b + carry. */
  lemma {:induction false} AdderConserves(I: Interp, a: Bits, b: Bits, carry: Formula)
    requires Standard(I)
    requires Len(a) == Len(b)
    ensures BlastAddCarry(a, b, carry).Some? && BlastAdd(a, b, carry).Some?
    ensures Len(BlastAdd(a, b, carry).value) == Len(a)
    ensures Msb(I, a) + Msb(I, b) + Bit(I, carry)
            == Msb(I, BlastAdd(a, b, carry).value)
               + if I.holds(BlastAddCarry(a, b, carry).value) then Pow2(Len(a)) else 0
  {
    if a.BbltC? {
      AdderConserves(I, a.rest, b.rest, carry);
      var c := BlastAddCarry(a.rest, b.rest, carry).value;
      FullAdderAt(I, a.bit, b.bit, c, Pow2(Len(a.rest)));
      assert BlastAdd(a, b, carry).value.bit == SumBit(a.bit, b.bit, c);
      assert BlastAddCarry(a, b, carry).value == CarryBit(a.bit, b.bit, c);
    }
  }

  lemma {:induction false} AddCorrect(I: Interp, a: Bits, b: Bits, carry: Formula)
    requires Standard(I)
    requires Len(a) == Len(b)
    ensures BlastAdd(a, b, carry).Some? && Len(BlastAdd(a, b, carry).value) == Len(a)
    ensures Msb(I, BlastAdd(a, b, carry).value) == (Msb(I, a) + Msb(I, b) + Bit(I, carry)) % Pow2(Len(a))
  {
    AdderConserves(I, a, b, carry);
    WrapOnce(Msb(I, a) + Msb(I, b) + Bit(I, carry), Pow2(Len(a)), Msb(I, BlastAdd(a, b, carry).value),
             I.holds(BlastAddCarry(a, b, carry).value));
  }

  lemma {:induction false} AddFailsOnUnequal(a: Bits, b: Bits, carry: Formula)
    requires Len(a) != Len(b)
    ensures BlastAdd(a, b, carry).None?
  {
    if a.BbltC? && b.BbltC? { AddFailsOnUnequal(a.rest, b.rest, carry); }
  }

  lemma {:induction false} NotCorrect(I: Interp, x: Bits)
    requires Standard(I)
    ensures Len(BlastNot(x)) == Len(x)
    ensures Msb(I, BlastNot(x)) == Pow2(Len(x)) - 1 - Msb(I, x)
  {
    if x.BbltC? { NotCorrect(I, x.rest); }
  }

  lemma {:induction false} ZeroCorrect(I: Interp, n: nat)
    requires Standard(I)
    ensures BlastZero(n).Some? && Len(BlastZero(n).value) == n && Msb(I, BlastZero(n).value) == 0
  {
    if n > 0 { ZeroCorrect(I, n - 1); }
  }

  lemma {:induction false} NegCorrect(I: Interp, x: Bits)
    requires Standard(I)
    ensures BlastNeg(x, Len(x)).Some? && Len(BlastNeg(x, Len(x)).value) == Len(x)
    ensures Msb(I, BlastNeg(x, Len(x)).value) == (Pow2(Len(x)) - Msb(I, x)) % Pow2(Len(x))
  {
    NotCorrect(I, x);
    ZeroCorrect(I, Len(x));
    AddCorrect(I, BlastNot(x), BlastZero(Len(x)).value, True);
    assert Bit(I, True) == 1;
    assert Msb(I, BlastNot(x)) + Msb(I, BlastZero(Len(x)).value) + Bit(I, True) == Pow2(Len(x)) - Msb(I, x);
  }

  // ----- shift-add multiplier -----

  lemma {:induction false} TopKBitsCorrect(I: Interp, a: Bits, k: nat)
    requires k <= Len(a)
    ensures TopKBits(a, k).Some? && Len(TopKBits(a, k).value) == k
    ensures Lsb(I, TopKBits(a, k).value) == Low(Lsb(I, a), k)
  {
    if k > 0 {
      TopKBitsCorrect(I, a.rest, k - 1);
    }
  }

  lemma {:induction false} KBitCorrect(I: Interp, a: Bits, k: nat)
    requires k < Len(a)
    ensures KBit(a, k).Some?
    ensures I.holds(KBit(a, k).value) <==> BitAt(Lsb(I, a), k)
  {
    if k > 0 {
      KBitCorrect(I, a.rest, k - 1);
    }
  }

  lemma {:induction false} AndWithBitCorrect(I: Interp, a: Bits, bt: Formula)
    requires Standard(I)
    ensures Len(AndWithBit(a, bt)) == Len(a)
    ensures Lsb(I, AndWithBit(a, bt)) == if I.holds(bt) then Lsb(I, a) else 0
  {
    if a.BbltC? { AndWithBitCorrect(I, a.rest, bt); }
  }

  /** The sum that `MultStepKH` builds, least significant bit first. */
  function ShiftedSum(a: Bits, b: Bits, carry: Formula, k: int): Bits
    requires Len(a) == Len(b) + if k < 0 then 0 else k
  {
    if a.BbltN? then BbltN
    else if k <= 0 then
      BbltC(SumBit(a.bit, b.bit, carry),
            ShiftedSum(a.rest, b.rest, CarryBit(a.bit, b.bit, carry), k - 1))
    else BbltC(a.bit, ShiftedSum(a.rest, b, carry, k - 1))
  }

  /** The carry that falls off its end. */
  function ShiftedCarry(a: Bits, b: Bits, carry: Formula, k: int): Formula
    requires Len(a) == Len(b) + if k < 0 then 0 else k
  {
    if a.BbltN? then carry
    else if k <= 0 then ShiftedCarry(a.rest, b.rest, CarryBit(a.bit, b.bit, carry), k - 1)
    else ShiftedCarry(a.rest, b, carry, k - 1)
  }

  lemma {:induction false} UnshiftedSumValue(I: Interp, a: Bits, b: Bits, carry: Formula, k: int)
    requires Standard(I)
    requires k <= 0 && Len(a) == Len(b)
    ensures Len(ShiftedSum(a, b, carry, k)) == Len(a)
    ensures Lsb(I, ShiftedSum(a, b, carry, k))
            + (if I.holds(ShiftedCarry(a, b, carry, k)) then Pow2(Len(a)) else 0)
            == Lsb(I, a) + Lsb(I, b) + Bit(I, carry)
  {
    if a.BbltC? {
      UnshiftedSumValue(I, a.rest, b.rest, CarryBit(a.bit, b.bit, carry), k - 1);
      FullAdder(I, a.bit, b.bit, carry);
    }
  }

  lemma ShiftedSumUnfolds(I: Interp, a: Bits, b: Bits, carry: Formula, k: nat)
    requires Len(a) == Len(b) + k && k > 0
    ensures ShiftedCarry(a, b, carry, k) == ShiftedCarry(a.rest, b, carry, k - 1)
    ensures var rest := ShiftedSum(a.rest, b, carry, k - 1);
      Len(ShiftedSum(a, b, carry, k)) == Len(rest) + 1
        && Lsb(I, ShiftedSum(a, b, carry, k)) == Bit(I, a.bit) + 2 * Lsb(I, rest)
  {
    var rest := ShiftedSum(a.rest, b, carry, k - 1);
    assert ShiftedSum(a, b, carry, k) == BbltC(a.bit, rest);
  }

  lemma {:induction false} ShiftedSumValue(I: Interp, a: Bits, b: Bits, carry: Formula, k: nat)
    requires Standard(I)
    requires Len(a) == Len(b) + k && !I.holds(carry)
    ensures Len(ShiftedSum(a, b, carry, k)) == Len(a)
    ensures Lsb(I, ShiftedSum(a, b, carry, k))
            + (if I.holds(ShiftedCarry(a, b, carry, k)) then Pow2(Len(a)) else 0)
            == Lsb(I, a) + Shift(k, Lsb(I, b))
  {
    if k == 0 {
      UnshiftedSumValue(I, a, b, carry, 0);
    } else {
      var j := k - 1;
      ShiftedSumUnfolds(I, a, b, carry, k);
      ShiftedSumValue(I, a.rest, b, carry, j);
    }
  }

  lemma {:induction false} MultStepKHBuilds(a: Bits, b: Bits, res: Bits, carry: Formula, k: int)
    requires Len(a) == Len(b) + if k < 0 then 0 else k
    ensures k <= 0 || b.BbltC? ==>
              MultStepKH(a, b, res, carry, k) == Some(ReverseHelp(ShiftedSum(a, b, carry, k), res))
  {
    if a.BbltC? {
      if k <= 0 {
        MultStepKHBuilds(a.rest, b.rest,
                         BbltC(SumBit(a.bit, b.bit, carry), res),
                         CarryBit(a.bit, b.bit, carry), k - 1);
      } else {
        MultStepKHBuilds(a.rest, b, BbltC(a.bit, res), carry, k - 1);
      }
    }
  }

  /** The accumulator of the multiplier before row k. */
  function Accumulated(a: nat, b: nat, n: nat, k: nat): (r: nat)
    requires k <= n
    ensures r < Pow2(n)
  {
    if k == 0 then 0
    else
      var row := if BitAt(b, k - 1) then Shift(k - 1, Low(a, n - k + 1)) else 0;
      ShiftLowBound(k - 1, a, n - k + 1);
      Wrap(Accumulated(a, b, n, k - 1) + row, Pow2(n))
  }

  function Wrap(x: nat, d: nat): nat { if x < d then x else x - d }

  lemma {:induction false} ShiftLowBound(k: nat, x: nat, w: nat)
    ensures Shift(k, Low(x, w)) < Pow2(k + w)
  {
    if k > 0 { ShiftLowBound(k - 1, x, w); } else { LowBound(x, w); }
  }

  lemma {:induction false} LowBound(x: nat, w: nat)
    ensures Low(x, w) < Pow2(w)
  {
    if w > 0 { LowBound(x / 2, w - 1); }
  }

  /** The row that `MultStep` adds at step k. */
  function Row(a: Bits, b: Bits, n: nat, k: nat): Bits
    requires Len(a) == Len(b) == n && k < n
    requires TopKBits(a, n - k).Some? && KBit(b, k).Some?
  {
    AndWithBit(TopKBits(a, n - k).value, KBit(b, k).value)
  }

  lemma {:induction false} RowValue(I: Interp, a: Bits, b: Bits, n: nat, k: nat)
    requires Standard(I)
    requires Len(a) == Len(b) == n && k < n
    ensures TopKBits(a, n - k).Some? && KBit(b, k).Some? && Len(Row(a, b, n, k)) == n - k
    ensures Shift(k, Lsb(I, Row(a, b, n, k))) == if BitAt(Lsb(I, b), k) then Shift(k, Low(Lsb(I, a), n - k)) else 0
  {
    TopKBitsCorrect(I, a, n - k);
    KBitCorrect(I, b, k);
    AndWithBitCorrect(I, TopKBits(a, n - k).value, KBit(b, k).value);
    ShiftZero(k);
  }

  lemma {:induction false} RowAdded(I: Interp, a: Bits, b: Bits, res: Bits, n: nat, k: nat)
    requires Standard(I)
    requires Len(a) == Len(b) == Len(res) == n && 1 <= k < n
    requires Lsb(I, res) == Accumulated(Lsb(I, a), Lsb(I, b), n, k)
    ensures TopKBits(a, n - k).Some? && KBit(b, k).Some? && Len(Row(a, b, n, k)) == n - k
    ensures Lsb(I, ShiftedSum(res, Row(a, b, n, k), False, k)) == Accumulated(Lsb(I, a), Lsb(I, b), n, k + 1)
  {
    RowValue(I, a, b, n, k);
    ShiftedSumValue(I, res, Row(a, b, n, k), False, k);
    assert Accumulated(Lsb(I, a), Lsb(I, b), n, k + 1)
        == Wrap(Lsb(I, res) + Shift(k, Lsb(I, Row(a, b, n, k))), Pow2(n));
  }

  /** One call of `MultStep` adds row k and turns the accumulator over. */
  lemma {:induction false} MultStepRow(I: Interp, a: Bits, b: Bits, res: Bits, n: nat, k: nat) returns (sum: Bits)
    requires Standard(I)
    requires Len(a) == Len(b) == Len(res) == n && 1 <= k < n
    requires Lsb(I, res) == Accumulated(Lsb(I, a), Lsb(I, b), n, k)
    ensures Len(sum) == n
    ensures MultStep(a, b, res, n, k) == if n - k == 1 then Some(ReverseB(sum)) else MultStep(a, b, sum, n, k + 1)
    ensures Lsb(I, sum) == Accumulated(Lsb(I, a), Lsb(I, b), n, k + 1)
  {
    RowAdded(I, a, b, res, n, k);
    var row := Row(a, b, n, k);
    sum := ShiftedSum(res, row, False, k);
    ShiftedSumValue(I, res, row, False, k);
    MultStepUnfolds(a, b, res, n, k);
  }

  lemma {:induction false} MultStepUnfolds(a: Bits, b: Bits, res: Bits, n: nat, k: nat)
    requires Len(a) == Len(b) == Len(res) == n && 1 <= k < n
    requires TopKBits(a, n - k).Some? && KBit(b, k).Some? && Len(Row(a, b, n, k)) == n - k
    ensures var sum := ShiftedSum(res, Row(a, b, n, k), False, k);
            MultStep(a, b, res, n, k) == if n - k == 1 then Some(ReverseB(sum)) else MultStep(a, b, sum, n, k + 1)
  {
    var sum := ShiftedSum(res, Row(a, b, n, k), False, k);
    MultStepKHBuilds(res, Row(a, b, n, k), BbltN, False, k);
    ReverseTwice(sum, BbltN);
  }

  /** The loop invariant of the multiplier, carried to its end. */
  lemma {:induction false} MultStepAccumulates(I: Interp, a: Bits, b: Bits, res: Bits, n: nat, k: nat)
    requires Standard(I)
    requires Len(a) == Len(b) == Len(res) == n && 1 <= k < n
    requires Lsb(I, res) == Accumulated(Lsb(I, a), Lsb(I, b), n, k)
    ensures MultStep(a, b, res, n, k).Some? && Len(MultStep(a, b, res, n, k).value) == n
    ensures Msb(I, MultStep(a, b, res, n, k).value) == Accumulated(Lsb(I, a), Lsb(I, b), n, n)
    decreases n - k
  {
    var sum := MultStepRow(I, a, b, res, n, k);
    if n - k == 1 {
      ReverseCorrect(I, sum);
    } else {
      MultStepAccumulates(I, a, b, sum, n, k + 1);
    }
  }

  /** One more partial product, modulo p * q. */
  lemma PartialProduct(a: nat, low: nat, p: nat, q: nat)
    requires p > 0 && q > 0 && p * q > 0
    ensures ((a * low) % (p * q) + p * (a % q)) % (p * q) == (a * (low + p)) % (p * q)
  {
    var n := p * q;
    ModAdd(a * low, p * (a % q), n);
    assert a == (a / q) * q + a % q;
    assert p * a == (a / q) * n + p * (a % q) by {
      assert p * a == p * ((a / q) * q) + p * (a % q);
      assert p * ((a / q) * q) == (a / q) * (p * q);
    }
    assert a * (low + p) == a * low + p * (a % q) + (a / q) * n;
    ModShift(a * low + p * (a % q), a / q, n);
  }

  lemma WrapIsRemainder(x: nat, d: nat)
    requires 0 < d && x < 2 * d
    ensures Wrap(x, d) == x % d
  {
  }

  lemma OneRow(a: nat, low: nat, bit: bool, p: nat, q: nat, n: nat, acc: nat, row: nat)
    requires p > 0 && q > 0 && n == p * q && n > 0 && acc == (a * low) % n
    requires row == if bit then (a % q) * p else 0
    requires acc + row < 2 * n
    ensures Wrap(acc + row, n) == (a * (low + if bit then p else 0)) % n
  {
    if bit { PartialProduct(a, low, p, q); }
    WrapIsRemainder(acc + row, n);
  }

  /** Before row k the accumulator is a * (b mod 2^k), modulo 2^n. */
  lemma {:induction false} AccumulatedIsProduct(a: nat, b: nat, n: nat, k: nat)
    requires k <= n
    ensures Accumulated(a, b, n, k) == (a * Low(b, k)) % Pow2(n)
  {
    if k == 0 {
      assert a * Low(b, 0) == 0;
    } else {
      AccumulatedIsProduct(a, b, n, k - 1);
      AccumulateRow(a, b, n, k - 1, Accumulated(a, b, n, k - 1), Low(b, k - 1));
      LowStep(b, k - 1);
    }
  }

  lemma AccumulateRow(a: nat, b: nat, n: nat, k: nat, acc: nat, low: nat)
    requires k < n && acc == Accumulated(a, b, n, k) && acc == (a * low) % Pow2(n)
    ensures Accumulated(a, b, n, k + 1) == (a * (low + if BitAt(b, k) then Pow2(k) else 0)) % Pow2(n)
  {
    var q := n - k;
    LowIsRemainder(a, q);
    ShiftIsProduct(k, Low(a, q));
    ShiftLowBound(k, a, q);
    Pow2Add(k, q);
    var row := if BitAt(b, k) then Shift(k, Low(a, q)) else 0;
    assert Accumulated(a, b, n, k + 1) == Wrap(acc + row, Pow2(n));
    OneRow(a, low, BitAt(b, k), Pow2(k), Pow2(q), Pow2(n), acc, row);
  }

  /** The multiplier never fails on lists of one length n >= 1, and its bits are
      the product modulo 2^n. */
  lemma {:induction false} MulCorrect(I: Interp, a: Bits, b: Bits)
    requires Standard(I)
    requires Len(a) == Len(b) >= 1
    ensures BlastMul(a, b, Len(a)).Some? && Len(BlastMul(a, b, Len(a)).value) == Len(a)
    ensures Msb(I, BlastMul(a, b, Len(a)).value) == (Msb(I, a) * Msb(I, b)) % Pow2(Len(a))
  {
    var n := Len(a);
    MulAccumulates(I, a, b);
    AccumulatedIsProduct(Msb(I, a), Msb(I, b), n, n);
    LowSmall(Msb(I, b), n);
  }

  lemma {:induction false} MulAccumulates(I: Interp, a: Bits, b: Bits)
    requires Standard(I)
    requires Len(a) == Len(b) >= 1
    ensures BlastMul(a, b, Len(a)).Some? && Len(BlastMul(a, b, Len(a)).value) == Len(a)
    ensures Msb(I, BlastMul(a, b, Len(a)).value) == Accumulated(Msb(I, a), Msb(I, b), Len(a), Len(a))
  {
    var n := Len(a);
    var ar, br := ReverseB(a), ReverseB(b);
    ReverseCorrect(I, a);
    ReverseCorrect(I, b);
    KBitCorrect(I, br, 0);
    var b0 := KBit(br, 0).value;
    var res := AndWithBit(ar, b0);
    AndWithBitCorrect(I, ar, b0);
    LowSmall(Lsb(I, ar), n);
    assert Accumulated(Lsb(I, ar), Lsb(I, br), n, 0) == 0;
    assert Lsb(I, res) == Accumulated(Lsb(I, ar), Lsb(I, br), n, 1);
    if n == 1 {
      assert ar.rest.BbltN? && br.rest.BbltN?;
    } else {
      MultStepAccumulates(I, ar, br, res, n, 1);
    }
  }
}
