/** Congruences and powers. */
module Modular {
  import opened Digits

  ghost predicate Cong(a: int, b: int, m: int)
    requires m > 0
  {
    (a - b) % m == 0
  }

  lemma CongIntro(a: int, b: int, m: int, k: int)
    requires m > 0 && a == b + m * k
    ensures Cong(a, b, m)
  {
    DivUnique(a - b, m, k, 0);
  }

  /** The multiple by which congruent numbers differ. */
  ghost function Multiple(a: int, b: int, m: int): (k: int)
    requires m > 0 && Cong(a, b, m)
    ensures a == b + m * k
  {
    (a - b) / m
  }

  lemma CongRefl(a: int, m: int)
    requires m > 0
    ensures Cong(a, a, m)
  {
    CongIntro(a, a, m, 0);
  }

  lemma CongSym(a: int, b: int, m: int)
    requires m > 0 && Cong(a, b, m)
    ensures Cong(b, a, m)
  {
    CongIntro(b, a, m, -Multiple(a, b, m));
  }

  lemma CongTrans(a: int, b: int, c: int, m: int)
    requires m > 0 && Cong(a, b, m) && Cong(b, c, m)
    ensures Cong(a, c, m)
  {
    var j, k := Multiple(a, b, m), Multiple(b, c, m);
    Expand3(m, j, k);
    CongIntro(a, c, m, j + k);
  }

  lemma Expand3(m: int, x: int, y: int)
    ensures m * (x + y) == m * x + m * y
  {}

  lemma CongAdd(a: int, a': int, b: int, b': int, m: int)
    requires m > 0 && Cong(a, a', m) && Cong(b, b', m)
    ensures Cong(a + b, a' + b', m)
  {
    var j, k := Multiple(a, a', m), Multiple(b, b', m);
    Expand3(m, j, k);
    CongIntro(a + b, a' + b', m, j + k);
  }

  lemma CongMul(a: int, a': int, b: int, b': int, m: int)
    requires m > 0 && Cong(a, a', m) && Cong(b, b', m)
    ensures Cong(a * b, a' * b', m)
  {
    var j, k := Multiple(a, a', m), Multiple(b, b', m);
    MulMultiples(a', j, b', k, m);
    CongIntro(a * b, a' * b', m, a' * k + j * b' + j * (m * k));
  }

  lemma MulMultiples(a: int, j: int, b: int, k: int, m: int)
    ensures (a + m * j) * (b + m * k) == a * b + m * (a * k + j * b + j * (m * k))
  {
    assert (a + m * j) * (b + m * k) == a * b + a * (m * k) + (m * j) * b + (m * j) * (m * k);
    assert m * (a * k + j * b + j * (m * k)) == m * (a * k) + m * (j * b) + m * (j * (m * k));
    Assoc(m, j, m * k);
    Assoc(m, j, b);
    assert a * (m * k) == m * (a * k);
  }

  lemma CongMod(a: int, m: int)
    requires m > 0
    ensures Cong(a, a % m, m)
  {
    CongIntro(a, a % m, m, a / m);
  }

  lemma CongUnique(a: int, b: int, m: int)
    requires m > 0 && Cong(a, b, m) && 0 <= b < m
    ensures a % m == b
  {
    DivUnique(a, m, Multiple(a, b, m), b);
  }

  /** A congruence holds for every divisor of the modulus. */
  lemma CongDivisor(a: int, b: int, m: int, d: int, k: int)
    requires m > 0 && d > 0 && m == d * k && Cong(a, b, m)
    ensures Cong(a, b, d)
  {
    Assoc(d, k, Multiple(a, b, m));
    CongIntro(a, b, d, k * Multiple(a, b, m));
  }

  /** An odd modulus lets a factor of two be cancelled. */
  lemma CancelTwo(a: int, b: int, m: int)
    requires m > 0 && m % 2 == 1 && Cong(2 * a, 2 * b, m)
    ensures Cong(a, b, m)
  {
    var k := Multiple(2 * a, 2 * b, m);
    OddTimes(m, k);
    assert m * k == m * (2 * (k / 2)) == 2 * (m * (k / 2));
    CongIntro(a, b, m, k / 2);
  }

  lemma OddTimes(m: int, k: int)
    requires m % 2 == 1 && m * k % 2 == 0
    ensures k % 2 == 0
  {
    if k % 2 == 1 {
      OddProduct(m / 2, k / 2);
    }
  }

  lemma OddProduct(i: int, j: int)
    ensures (2 * i + 1) * (2 * j + 1) == 2 * (2 * (i * j) + i + j) + 1
  {}

  // ----- powers

  ghost function Power(b: int, e: nat): int {
    if e == 0 then 1 else b * Power(b, e - 1)
  }

  lemma {:induction false} PowerAdd(b: int, d: nat, e: nat)
    ensures Power(b, d + e) == Power(b, d) * Power(b, e)
  {
    if d > 0 {
      PowerAdd(b, d - 1, e);
      Assoc(b, Power(b, d - 1), Power(b, e));
    }
  }

  lemma {:induction false} PowerMul(b: int, d: nat, e: nat)
    ensures Power(b, d * e) == Power(Power(b, d), e)
    decreases e
  {
    if e > 0 {
      PowerMul(b, d, e - 1);
      assert d * e == d + d * (e - 1);
      PowerAdd(b, d, d * (e - 1));
    } else {
      assert d * e == 0;
    }
  }

  lemma {:induction false} CongPower(a: int, b: int, e: nat, m: int)
    requires m > 0 && Cong(a, b, m)
    ensures Cong(Power(a, e), Power(b, e), m)
  {
    if e == 0 {
      CongRefl(1, m);
    } else {
      CongPower(a, b, e - 1, m);
      CongMul(a, b, Power(a, e - 1), Power(b, e - 1), m);
    }
  }
}
