/** Powers of two and the few facts on `/` and `%` that the bit-level proofs use. */
module Numbers {
  function Pow2(n: int): (r: nat)
    ensures r >= 1
  {
    if n <= 0 then 1 else 2 * Pow2(n - 1)
  }

  lemma {:induction false} Pow2Add(m: int, n: nat)
    requires m >= 0
    ensures Pow2(m + n) == Pow2(m) * Pow2(n)
  {
    if n > 0 { Pow2Add(m, n - 1); }
  }

  lemma {:induction false} Pow2Monotone(m: int, n: int)
    requires m <= n
    ensures Pow2(m) <= Pow2(n)
    decreases n - m
  {
    if m < n { Pow2Monotone(m, n - 1); }
  }

  lemma MulBound(x: nat, a: nat, y: nat, b: nat)
    requires x < a && y < b
    ensures x * b + y < a * b
  {
    assert x + 1 <= a;
    assert (x + 1) * b <= a * b;
  }

  lemma MulGrows(k: int, d: int)
    requires d > 0
    ensures k >= 1 ==> k * d >= d
    ensures k <= -1 ==> k * d <= -d
  {
  }

  /** Quotient and remainder are determined by their defining equation. */
  lemma DivModUnique(x: int, d: int, q: int, r: int)
    requires d > 0 && x == q * d + r && 0 <= r < d
    ensures x / d == q && x % d == r
  {
    var q', r' := x / d, x % d;
    assert x == q' * d + r';
    assert (q' - q) * d == r - r' by { assert (q' - q) * d == q' * d - q * d; }
    MulGrows(q' - q, d);
  }

  /** Adding a multiple of the modulus does not change the remainder. */
  lemma ModShift(x: int, k: int, d: int)
    requires d > 0
    ensures (x + k * d) % d == x % d
  {
    DivModUnique(x + k * d, d, x / d + k, x % d);
  }

  /** Reduction of one summand before the sum is reduced. */
  lemma ModAdd(x: int, y: int, d: int)
    requires d > 0
    ensures (x % d + y) % d == (x + y) % d
  {
    ModShift(x % d + y, x / d, d);
  }

  lemma HalfThenDiv(x: nat, p: nat)
    requires p > 0
    ensures x / 2 / p == x / (2 * p)
    ensures x % (2 * p) == x % 2 + 2 * (x / 2 % p)
  {
    var h := x / 2;
    assert h == (h / p) * p + h % p;
    assert x == 2 * h + x % 2;
    assert 2 * ((h / p) * p) == (h / p) * (2 * p);
    DivModUnique(x, 2 * p, h / p, 2 * (h % p) + x % 2);
  }

  /** The w lowest bits of x, one bit at a time. */
  function Low(x: nat, w: nat): nat { if w == 0 then 0 else x % 2 + 2 * Low(x / 2, w - 1) }

  /** x without its j lowest bits, one bit at a time. */
  function Drop(x: nat, j: nat): nat { if j == 0 then x else Drop(x / 2, j - 1) }

  predicate BitAt(x: nat, i: nat) { Drop(x, i) % 2 == 1 }

  lemma {:induction false} LowIsRemainder(x: nat, w: nat)
    ensures Low(x, w) == x % Pow2(w)
  {
    if w > 0 {
      LowIsRemainder(x / 2, w - 1);
      HalfThenDiv(x, Pow2(w - 1));
    }
  }

  lemma {:induction false} DropIsQuotient(x: nat, j: nat)
    ensures Drop(x, j) == x / Pow2(j)
  {
    if j > 0 {
      DropIsQuotient(x / 2, j - 1);
      HalfThenDiv(x, Pow2(j - 1));
    }
  }

  lemma {:induction false} LowSmall(x: nat, w: nat)
    requires x < Pow2(w)
    ensures Low(x, w) == x
  {
    if w > 0 { LowSmall(x / 2, w - 1); }
  }

  lemma {:induction false} LowStep(x: nat, w: nat)
    ensures Low(x, w + 1) == Low(x, w) + if BitAt(x, w) then Pow2(w) else 0
  {
    if w > 0 { LowStep(x / 2, w - 1); }
  }

  lemma HalfWithTop(x: nat, top: bool, n: nat)
    requires n > 0
    ensures ((if top then Pow2(n) else 0) + x) / 2 == (if top then Pow2(n - 1) else 0) + x / 2
    ensures ((if top then Pow2(n) else 0) + x) % 2 == x % 2
  {
    assert Pow2(n) == 2 * Pow2(n - 1);
  }

  /** A bit at position n does not show in the w lowest bits when w <= n. */
  lemma {:induction false} LowTop(x: nat, top: bool, n: nat, w: nat)
    requires w <= n
    ensures Low((if top then Pow2(n) else 0) + x, w) == Low(x, w)
  {
    if w > 0 {
      HalfWithTop(x, top, n);
      LowTop(x / 2, top, n - 1, w - 1);
    }
  }

  lemma {:induction false} DropTop(x: nat, top: bool, n: nat, j: nat)
    requires j <= n
    ensures Drop((if top then Pow2(n) else 0) + x, j) == (if top then Pow2(n - j) else 0) + Drop(x, j)
  {
    if j > 0 {
      HalfWithTop(x, top, n);
      DropTop(x / 2, top, n - 1, j - 1);
    }
  }

  lemma {:induction false} DropSmall(x: nat, j: nat)
    requires x < Pow2(j)
    ensures Drop(x, j) == 0
  {
    if j > 0 { DropSmall(x / 2, j - 1); }
  }

  /** x * 2^k, one doubling at a time. */
  function Shift(k: nat, x: nat): nat { if k == 0 then x else 2 * Shift(k - 1, x) }

  lemma {:induction false} ShiftIsProduct(k: nat, x: nat)
    ensures Shift(k, x) == x * Pow2(k)
  {
    if k > 0 {
      ShiftIsProduct(k - 1, x);
      assert x * (2 * Pow2(k - 1)) == 2 * (x * Pow2(k - 1));
    }
  }

  /** Shifting moves a top bit along. */
  lemma {:induction false} ShiftTop(k: nat, top: bool, m: nat, x: nat)
    ensures Shift(k, (if top then Pow2(m) else 0) + x) == (if top then Pow2(m + k) else 0) + Shift(k, x)
  {
    if k > 0 { ShiftTop(k - 1, top, m, x); }
  }

  lemma {:induction false} ShiftDouble(k: nat, x: nat)
    ensures Shift(k, 2 * x) == Shift(k + 1, x)
  {
    if k > 0 { ShiftDouble(k - 1, x); }
  }

  lemma {:induction false} ShiftZero(k: nat)
    ensures Shift(k, 0) == 0
  {
    if k > 0 { ShiftZero(k - 1); }
  }

  lemma WrapOnce(x: nat, d: nat, s: nat, out: bool)
    requires s < d && x == s + if out then d else 0
    ensures x % d == s
  {
    DivModUnique(x, d, if out then 1 else 0, s);
  }
}
