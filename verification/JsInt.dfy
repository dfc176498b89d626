/** JavaScript's 32-bit bitwise operators, on numbers that hold integers.

The operators convert their operands to 32-bit signed integers. Each function below takes
the power of two that the shift or mask stands for and demands that the value fits, so that
every use carries the proof that no 32-bit wrap-around happens. */
module JsInt {

  predicate Int32(x: int) {
    -0x8000_0000 <= x < 0x8000_0000
  }

  function Pow2(n: nat): (p: nat)
    ensures p > 0
  {
    if n == 0 then 1 else 2 * Pow2(n - 1)
  }

  /** `x >> k` for `p == 1 << k`: the shift rounds toward minus infinity. */
  function Shr(x: int, p: int): int
    requires Int32(x) && p > 0
  {
    x / p
  }

  /** `x << k` for `p == 1 << k`. */
  function Shl(x: int, p: int): int
    requires p > 0 && Int32(x * p)
  {
    x * p
  }

  /** `x & ((1 << k) - 1)` for `p == 1 << k`, in two's complement. */
  function Low(x: int, p: int): int
    requires p > 0
  {
    x % p
  }

  /** `x | y` on non-negative operands, bit by bit. */
  function Or(x: nat, y: nat): nat
    decreases x + y
  {
    if x == 0 then y
    else if y == 0 then x
    else (if x % 2 == 1 || y % 2 == 1 then 1 else 0) + 2 * Or(x / 2, y / 2)
  }

  /** Or of a low part and a multiple of a power of two above it is their sum. */
  lemma {:induction false} OrDisjoint(lo: nat, hi: nat, k: nat)
    requires lo < Pow2(k)
    ensures Or(lo, hi * Pow2(k)) == lo + hi * Pow2(k)
    decreases k
  {
    if lo == 0 || hi == 0 {
      assert hi == 0 ==> hi * Pow2(k) == 0;
    } else {
      var q := Pow2(k - 1);
      HalfMultiple(hi, q);
      OrDisjoint(lo / 2, hi, k - 1);
    }
  }

  lemma HalfMultiple(hi: nat, q: nat)
    ensures hi * (2 * q) / 2 == hi * q && hi * (2 * q) % 2 == 0
  {
    assert hi * (2 * q) == 2 * (hi * q);
  }

  lemma {:induction false} Pow2Add(a: nat, b: nat)
    ensures Pow2(a + b) == Pow2(a) * Pow2(b)
  {
    if a > 0 {
      Pow2Add(a - 1, b);
      MulAssoc(2, Pow2(a - 1), Pow2(b));
    }
  }

  lemma {:induction false} Pow2Monotone(a: nat, b: nat)
    requires a <= b
    ensures Pow2(a) <= Pow2(b)
  {
    if a < b {
      Pow2Monotone(a, b - 1);
    }
  }

  lemma MulAssoc(a: int, b: int, c: int)
    ensures (a * b) * c == a * (b * c)
  {}
}
