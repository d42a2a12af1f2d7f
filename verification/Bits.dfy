/** Shifts and masks, on natural numbers. */
module Bits {

  function Pow2(k: nat): (p: nat)
    ensures p > 0
  {
    if k == 0 then 1 else 2 * Pow2(k - 1)
  }

  lemma {:induction false} Pow2Sum(a: nat, b: nat)
    ensures Pow2(a + b) == Pow2(a) * Pow2(b)
  {
    if a > 0 {
      Pow2Sum(a - 1, b);
      assert Pow2(a + b) == 2 * Pow2(a + b - 1) == 2 * (Pow2(a - 1) * Pow2(b));
    }
  }

  lemma {:induction false} Pow2Monotone(a: nat, b: nat)
    requires a <= b
    ensures Pow2(a) <= Pow2(b)
  {
    if a < b { Pow2Monotone(a, b - 1); }
  }

  /** The `&` of two non-negative numbers, bit by bit. */
  function BitAnd(a: nat, b: nat): nat {
    if a == 0 || b == 0 then 0
    else 2 * BitAnd(a / 2, b / 2) + (if a % 2 == 1 && b % 2 == 1 then 1 else 0)
  }

  lemma AtLeastOne(x: int, d: nat)
    requires x >= 1
    ensures x * d >= d
  {
    assert x * d == (x - 1) * d + d;
  }

  lemma QuotientUnique(q: int, r: int, q': int, r': int, d: nat)
    requires q * d + r == q' * d + r' && 0 <= r < d && 0 <= r' < d
    ensures q == q' && r == r'
  {
    assert (q - q') * d == q * d - q' * d;
    assert (q' - q) * d == q' * d - q * d;
    if q > q' { AtLeastOne(q - q', d); }
    if q < q' { AtLeastOne(q' - q, d); }
  }

  lemma DivMod(n: int, d: nat)
    requires d > 0
    ensures n == (n / d) * d + n % d && 0 <= n % d < d
  {
  }

  lemma DivUnique(n: int, d: nat, q: int, r: nat)
    requires d > 0 && n == q * d + r && r < d
    ensures n / d == q && n % d == r
  {
    DivMod(n, d);
    QuotientUnique(q, r, n / d, n % d, d);
  }

  /** Adding a multiple of the divisor adds to the quotient. */
  lemma DivShift(x: int, d: nat, t: nat)
    requires d > 0
    ensures (x * d + t) / d == x + t / d && (x * d + t) % d == t % d
  {
    assert x * d + t == (x + t / d) * d + t % d by {
      assert t == (t / d) * d + t % d;
      assert (x + t / d) * d == x * d + (t / d) * d;
    }
    DivUnique(x * d + t, d, x + t / d, t % d);
  }

  lemma Halves(a: nat, h: nat)
    requires h > 0
    ensures a % (2 * h) == 2 * ((a / 2) % h) + a % 2
    ensures a / (2 * h) == (a / 2) / h
  {
    var q, r := a / 2 / h, (a / 2) % h;
    DivMod(a / 2, h);
    assert q * (2 * h) == 2 * (q * h);
    DivUnique(a, 2 * h, q, 2 * r + a % 2);
  }

  /** Masking with n ones keeps the last n bits. */
  lemma {:induction false} AndLowMask(a: nat, n: nat)
    ensures BitAnd(a, Pow2(n) - 1) == a % Pow2(n)
  {
    if n > 0 {
      AndLowMask(a / 2, n - 1);
      Halves(a, Pow2(n - 1));
      AndOdd(a, Pow2(n - 1) - 1);
    }
  }

  lemma AndOdd(a: nat, b: nat)
    ensures BitAnd(a, 2 * b + 1) == 2 * BitAnd(a / 2, b) + a % 2
  {
    assert (2 * b + 1) / 2 == b && (2 * b + 1) % 2 == 1;
  }

  lemma AndEven(a: nat, b: nat)
    ensures BitAnd(a, 2 * b) == 2 * BitAnd(a / 2, b)
  {
    assert (2 * b) / 2 == b && (2 * b) % 2 == 0;
  }

  /** Masking with ones above bit k clears the bits below it. */
  lemma {:induction false} AndHighMask(a: nat, n: nat, k: nat)
    requires a < Pow2(n) && k <= n
    ensures Pow2(k) <= Pow2(n)
    ensures BitAnd(a, Pow2(n) - Pow2(k)) == a - a % Pow2(k)
  {
    Pow2Monotone(k, n);
    if k == 0 {
      AndLowMask(a, n);
      DivUnique(a, Pow2(n), 0, a);
    } else {
      AndHighMask(a / 2, n - 1, k - 1);
      Halves(a, Pow2(k - 1));
      AndEven(a, Pow2(n - 1) - Pow2(k - 1));
    }
  }

  lemma MoveTwo(x: int, y: int)
    ensures (2 * x) * y == x * (2 * y)
  {
  }

  function ShiftLeft(a: nat, k: nat): nat
    decreases k
  {
    if k == 0 then a else ShiftLeft(2 * a, k - 1)
  }

  lemma {:induction false} ShiftLeftValue(a: nat, k: nat)
    ensures ShiftLeft(a, k) == a * Pow2(k)
    decreases k
  {
    if k > 0 {
      ShiftLeftValue(2 * a, k - 1);
      MoveTwo(a, Pow2(k - 1));
    }
  }

  /** `(ones(n) << k) & ones(n)`, the masks both tables are applied with. */
  function Mask(n: nat, k: nat): nat {
    BitAnd(ShiftLeft(Pow2(n) - 1, k), Pow2(n) - 1)
  }

  lemma MaskValue(n: nat, k: nat)
    requires k <= n
    ensures Pow2(k) <= Pow2(n) && Mask(n, k) == Pow2(n) - Pow2(k)
  {
    Pow2Monotone(k, n);
    AndLowMask(ShiftLeft(Pow2(n) - 1, k), n);
    ShiftLeftValue(Pow2(n) - 1, k);
    Wrapped(Pow2(n), Pow2(k));
  }

  lemma Wrapped(x: nat, y: nat)
    requires 0 < y <= x
    ensures ((x - 1) * y) % x == x - y
  {
    assert (x - 1) * y == x * y - y;
    assert (y - 1) * x == y * x - x;
    DivUnique((x - 1) * y, x, y - 1, x - y);
  }

  function Quotient(n: nat, d: nat): nat
    requires d > 0
  {
    n / d
  }

  function Remainder(n: nat, d: nat): nat
    requires d > 0
  {
    n % d
  }

  /** Two n-bit numbers agree under the mask exactly when they agree above bit k. */
  lemma MaskedEqual(a: nat, b: nat, n: nat, k: nat)
    requires a < Pow2(n) && b < Pow2(n) && k <= n
    ensures BitAnd(a, Mask(n, k)) == BitAnd(b, Mask(n, k)) <==> Quotient(a, Pow2(k)) == Quotient(b, Pow2(k))
  {
    MaskValue(n, k);
    AndHighMask(a, n, k);
    AndHighMask(b, n, k);
    SameAbove(a, b, Pow2(k));
  }

  lemma SameAbove(a: nat, b: nat, p: nat)
    requires p > 0
    ensures a - a % p == b - b % p <==> Quotient(a, p) == Quotient(b, p)
  {
    DivMod(a, p);
    DivMod(b, p);
    if a - a % p == b - b % p {
      QuotientUnique(a / p, 0, b / p, 0, p);
    }
  }
}
