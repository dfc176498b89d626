/** Montgomery reduction (HAC 14.32). */
module MontgomeryReduction {
  import opened JsInt
  import opened Digits
  import opened BigIntegers
  import opened Multiplication
  import opened Division
  import opened Modular

  // ----- the inverse of a digit

  /** Newton's step doubles the number of correct bits of an inverse. */
  lemma NewtonStep(x: int, y: int, m: int)
    requires m > 0 && Cong(x * y, 1, m)
    ensures m * m > 0 && Cong(x * (y * (2 - x * y)), 1, m * m)
  {
    var k := Multiple(x * y, 1, m);
    MulAtLeast(m, m, 1);
    NewtonIdentity(x, y, m, k);
    CongIntro(x * (y * (2 - x * y)), 1, m * m, -(k * k));
  }

  lemma NewtonIdentity(x: int, y: int, m: int, k: int)
    requires x * y == 1 + m * k
    ensures x * (y * (2 - x * y)) == 1 + m * m * -(k * k)
  {
    var z := x * y;
    Assoc(x, y, 2 - z);
    assert z * (2 - z) == 1 - (z - 1) * (z - 1);
    assert (m * k) * (m * k) == m * m * (k * k);
  }

  /** One line of `invDigit`: `y` inverts `x` modulo `m`; the step computed with any `z` congruent
      to `x*y` and reduced to any `r` congruent to it inverts `x` modulo `n`, a divisor of `m*m`. */
  lemma InverseLine(x: int, y: int, z: int, r: int, m: int, n: int, k: int)
    requires m > 0 && n > 0 && m * m == n * k && Cong(x * y, 1, m)
    requires Cong(z, x * y, n) && Cong(r, y * (2 - z), n)
    ensures Cong(x * r, 1, n)
  {
    NewtonStep(x, y, m);
    CongDivisor(x * (y * (2 - x * y)), 1, m * m, n, k);
    CongRefl(x, n);
    CongRefl(y, n);
    CongRefl(2, n);
    CongMul(-1, -1, z, x * y, n);
    CongAdd(2, 2, -z, -(x * y), n);
    CongMul(y, y, 2 - z, 2 - x * y, n);
    CongTrans(r, y * (2 - z), y * (2 - x * y), n);
    CongMul(x, x, r, y * (2 - x * y), n);
    CongTrans(x * r, x * (y * (2 - x * y)), 1, n);
  }

  lemma CongLow(a: int, n: int)
    requires n > 0
    ensures Cong(Low(a, n), a, n)
  {
    CongMod(a, n);
    CongSym(a, Low(a, n), n);
  }

  /** JavaScript's `%` takes the sign of the dividend. */
  lemma CongRem(a: int, n: int)
    requires n > 0
    ensures Cong(Rem(a, n), a, n) && -n < Rem(a, n) < n
  {
    TruncatedDivision(a, n, Quot(a, n), Rem(a, n));
    CongIntro(a, Rem(a, n), n, Quot(a, n));
    CongSym(a, Rem(a, n), n);
  }

  /** The line with masks: `(y * (2 - (x & (n-1)) * y)) & (n-1)`. */
  function RefineMasked(x: int, y: int, n: int): int
    requires n > 0
  {
    Low(y * (2 - Low(x, n) * y), n)
  }

  lemma RefineMaskedInverse(x: int, y: int, m: int, n: int)
    requires m > 0 && n == m * m > 0 && Cong(x * y, 1, m)
    ensures Cong(x * RefineMasked(x, y, n), 1, n) && 0 <= RefineMasked(x, y, n) < n
  {
    var z := Low(x, n) * y;
    CongLow(x, n);
    CongRefl(y, n);
    CongMul(Low(x, n), x, y, y, n);
    CongLow(y * (2 - z), n);
    InverseLine(x, y, z, RefineMasked(x, y, n), m, n, 1);
  }

  /** The line that masks the product: `(y * (2 - (((x & 0xffff) * y) & 0xffff))) & 0xffff`. */
  lemma RefineProductInverse(x: int, y: int, m: int, n: int)
    requires m > 0 && n == m * m > 0 && Cong(x * y, 1, m)
    ensures var r := Low(y * (2 - Low(Low(x, n) * y, n)), n); Cong(x * r, 1, n) && 0 <= r < n
  {
    var z := Low(Low(x, n) * y, n);
    CongLow(x, n);
    CongRefl(y, n);
    CongMul(Low(x, n), x, y, y, n);
    CongLow(Low(x, n) * y, n);
    CongTrans(z, Low(x, n) * y, x * y, n);
    CongLow(y * (2 - z), n);
    InverseLine(x, y, z, Low(y * (2 - z), n), m, n, 1);
  }

  /** The last line: `(y * (2 - ((x * y) % DV))) % DV`. */
  lemma RefineLastInverse(x: int, y: int)
    requires Cong(x * y, 1, 0x1_0000)
    ensures var r := Rem(y * (2 - Rem(x * y, DV)), DV); Cong(x * r, 1, DV) && -DV < r < DV
  {
    var z := Rem(x * y, DV);
    CongRem(x * y, DV);
    CongRem(y * (2 - z), DV);
    InverseLine(x, y, z, Rem(y * (2 - z), DV), 0x1_0000, DV, 16);
  }

  /** An odd number is its own inverse modulo 4. */
  lemma FirstInverse(x: int)
    requires x % 2 == 1
    ensures Cong(x * Low(x, 4), 1, 4)
  {
    var y := Low(x, 4);
    CongMod(x, 4);
    CongRefl(y, 4);
    CongMul(x, y, y, y, 4);
    assert y == 1 || y == 3;
    CongTrans(x * y, y * y, 1, 4);
  }

  lemma NegateInverse(x: int, y: int)
    requires Cong(x * y, 1, DV) && -DV < y < DV
    ensures var r := if y > 0 then DV - y else -y; 0 < r < DV && Cong(x * r, -1, DV)
  {
    CongRefl(x, DV);
    CongIntro(if y > 0 then DV - y else -y, -y, DV, if y > 0 then 1 else 0);
    CongMul(x, x, if y > 0 then DV - y else -y, -y, DV);
    CongMul(-1, -1, x * y, 1, DV);
    CongTrans(x * if y > 0 then DV - y else -y, x * -y, -1, DV);
  }

  /** `-1/this % 2^DB`, or zero when there is no inverse. */
  method InvDigit(self: BigInteger) returns (mp: int)
    requires self.WF()
    ensures self.t == 0 || self.digits[0] % 2 == 0 ==> mp == 0
    ensures self.t > 0 && self.digits[0] % 2 == 1 ==> 0 < mp < DV && Cong(self.digits[0] * mp, -1, DV)
  {
    if self.t < 1 {
      return 0;
    }
    var x := self.digits[0];
    if Low(x, 2) == 0 {
      return 0;
    }
    var y := Low(x, 4);
    FirstInverse(x);
    RefineMaskedInverse(x, y, 4, 0x10);
    y := RefineMasked(x, y, 0x10);
    RefineMaskedInverse(x, y, 0x10, 0x100);
    y := RefineMasked(x, y, 0x100);
    RefineProductInverse(x, y, 0x100, 0x1_0000);
    y := Low(y * (2 - Low(Low(x, 0x1_0000) * y, 0x1_0000)), 0x1_0000);
    RefineLastInverse(x, y);
    y := Rem(y * (2 - Rem(x * y, DV)), DV);
    NegateInverse(x, y);
    mp := if y > 0 then DV - y else -y;
  }

  // ----- reduction

  /** `u0 = x*mp mod DV` from 15-bit halves. */
  function MontDigit(x: int, mp: int): (u: int)
    requires 0 <= x < DV && 0 <= mp < DV
    ensures u == x * mp % DV
  {
    var mpl, mph := Low(mp, 0x8000), Shr(mp, 0x8000);
    var j, h := Low(x, 0x8000), Shr(x, 0x8000);
    MontDigitExact(h, j, mph, mpl);
    Low(j * mpl + Shl(Low(j * mph + h * mpl, 0x2000), 0x8000), DV)
  }

  lemma MontDigitExact(h: int, j: int, mph: int, mpl: int)
    ensures (h * 0x8000 + j) * (mph * 0x8000 + mpl) % DV == (j * mpl + Low(j * mph + h * mpl, 0x2000) * 0x8000) % DV
    ensures Int32(Low(j * mph + h * mpl, 0x2000) * 0x8000)
  {
    var w := j * mph + h * mpl;
    var a, b := (h * 0x8000 + j) * (mph * 0x8000 + mpl), j * mpl + Low(w, 0x2000) * 0x8000;
    HalvesProduct(h, j, mph, mpl);
    CongIntro(a, b, DV, 4 * (h * mph) + w / 0x2000);
    CongMod(b, DV);
    CongTrans(a, b, b % DV, DV);
    CongUnique(a, b % DV, DV);
  }

  lemma HalvesProduct(h: int, j: int, mph: int, mpl: int)
    ensures (h * 0x8000 + j) * (mph * 0x8000 + mpl) == h * mph * 0x4000_0000 + (j * mph + h * mpl) * 0x8000 + j * mpl
  {}

  lemma CarryRoom(a: seq<int>, j: nat, n: nat)
    requires j < n && IsDigits(a, 0, j) && n <= |a| && a[j] >= DV && V(a, 0, n, 0) < P(n)
    requires forall k :: j < k < n ==> 0 <= a[k]
    ensures j + 1 < n
  {
    if j + 1 == n {
      VSnoc(a, a, 0, j, 0);
      VTop(a, 0, j, a[j]);
      VBound(a, 0, j);
      MulAtLeast(P(j), a[j], DV);
    }
  }

  /** Carry out of word `j0` as far as it goes. */
  method PropagateCarry(x: BigInteger, j0: nat, n: nat)
    requires j0 < n <= |x.digits| && 0 <= x.digits[j0] < 2 * DV
    requires forall k :: 0 <= k < n && k != j0 ==> 0 <= x.digits[k] < DV
    requires V(x.digits, 0, n, 0) < P(n)
    modifies x`digits
    ensures |x.digits| == |old(x.digits)| && IsDigits(x.digits, 0, n)
    ensures V(x.digits, 0, n, 0) == V(old(x.digits), 0, n, 0)
    ensures forall k :: 0 <= k < j0 ==> x.digits[k] == old(x.digits)[k]
  {
    var j := j0;
    while x.digits[j] >= DV
      invariant j0 <= j < n <= |x.digits| == |old(x.digits)| && 0 <= x.digits[j] < 2 * DV
      invariant forall k :: 0 <= k < n && k != j ==> 0 <= x.digits[k] < DV
      invariant V(x.digits, 0, n, 0) == V(old(x.digits), 0, n, 0)
      invariant forall k :: 0 <= k < j0 ==> x.digits[k] == old(x.digits)[k]
      decreases n - j
    {
      CarryRoom(x.digits, j, n);
      ghost var a := x.digits;
      x.digits := x.digits[j := x.digits[j] - DV];
      j := j + 1;
      x.digits := x.digits[j := x.digits[j] + 1];
      CarryStep(a, x.digits, j - 1, n);
    }
  }

  /** After `i` rounds: a multiple of the modulus was added and the low `i` words are zero. */
  ghost predicate MontState(x: seq<int>, n: nat, i: nat, X: int, M: int, K: int) {
    && IsDigits(x, 0, 2 * n + 1) && i <= n && (forall k :: 0 <= k < i ==> x[k] == 0)
    && V(x, 0, 2 * n + 1, 0) == X + M * K && 0 <= K < P(i)
  }

  /** The sum always fits in `2*n + 1` words. */
  lemma MontFits(n: nat, i: nat, X: int, M: int, K: int)
    requires i <= n && 0 <= K < P(i) && 0 < M <= P(n) && 0 <= X < M * P(n)
    ensures X + M * K < P(2 * n + 1)
  {
    PMonotone(i, n);
    MulAtLeast(M, P(n), K);
    MulAtLeast(P(n), P(n), M);
    PAdd(n, n);
  }

  /** Adding `u*M` at word `i`, with the carry `c` going into word `e`. */
  lemma RoundValue(w0: seq<int>, w2: seq<int>, w3: seq<int>, i: nat, e: nat, n: nat, c: int, z: int)
    requires i <= e < n <= |w0| && |w2| == |w0| == |w3|
    requires forall k :: 0 <= k < |w0| && !(i <= k < e) ==> w2[k] == w0[k]
    requires w3[e] == w0[e] + c && forall k :: 0 <= k < |w0| && k != e ==> w3[k] == w2[k]
    requires V(w2, i, e, c) == V(w0, i, e, 0) + z
    ensures V(w3, 0, n, 0) == V(w0, 0, n, 0) + P(i) * z
  {
    var x := V(w0, e, n, 0);
    TopAfter(w0, w3, e, n, c);
    SameBelow(w2, w3, e, n, x + c);
    SameBelow(w0, w0, e, n, x);
    RowWeight(w0, w2, i, e, x, c, z);
  }

  lemma SameBelow(u: seq<int>, w: seq<int>, e: nat, n: nat, x: int)
    requires e <= n <= |w| && e <= |u| && V(w, e, n, 0) == x
    requires forall k :: 0 <= k < e ==> w[k] == u[k]
    ensures V(w, 0, n, 0) == V(u, 0, e, x)
  {
    VSplit(w, 0, e, n, 0);
    VFrame(u, w, 0, e, x);
  }

  lemma TopAfter(w0: seq<int>, w3: seq<int>, e: nat, n: nat, c: int)
    requires e < n <= |w0| && |w3| == |w0| && w3[e] == w0[e] + c
    requires forall k :: e < k < |w0| ==> w3[k] == w0[k]
    ensures V(w3, e, n, 0) == V(w0, e, n, 0) + c
  {
    VFrame(w0, w3, e + 1, n, 0);
  }

  /** The digit is chosen so that the lowest word of the sum vanishes. */
  lemma VanishingWord(w0: seq<int>, w2: seq<int>, i: nat, e: nat, c: int, m: seq<int>, n: nat, mp: int)
    requires i < e <= |w0| && e <= |w2| && 0 <= w2[i] < DV && 0 <= w0[i] < DV && 0 < n <= |m|
    requires Cong(m[0] * mp, -1, DV)
    requires V(w2, i, e, c) == V(w0, i, e, 0) + w0[i] * mp % DV * V(m, 0, n, 0)
    ensures w2[i] == 0
  {
    var d, M := w0[i], V(m, 0, n, 0);
    VanishingSum(d, mp, m[0], M, V(m, 1, n, 0), d * mp % DV);
    LowestWord(w2[i], V(w2, i + 1, e, c), V(w0, i + 1, e, 0), d + d * mp % DV * M);
  }

  lemma VanishingSum(d: int, mp: int, m0: int, M: int, h: int, u: int)
    requires M == m0 + DV * h && Cong(m0 * mp, -1, DV) && u == d * mp % DV
    ensures Cong(d + u * M, 0, DV)
  {
    CongMod(d * mp, DV);
    CongSym(d * mp, u, DV);
    CongIntro(M, m0, DV, h);
    CongMul(u, d * mp, M, m0, DV);
    CongRefl(d, DV);
    CongMul(d, d, m0 * mp, -1, DV);
    Swap(d, mp, m0);
    CongTrans(u * M, d * mp * m0, -d, DV);
    CongAdd(d, d, u * M, -d, DV);
  }

  lemma Swap(d: int, a: int, b: int)
    ensures d * a * b == d * (b * a)
  {}

  lemma LowestWord(d: int, a: int, b: int, z: int)
    requires 0 <= d < DV && d + DV * a == z + DV * b && Cong(z, 0, DV)
    ensures d == 0
  {
    var k := Multiple(z, 0, DV);
    SplitUnique(DV, d, a, 0, b + k);
  }

  lemma NextMultiple(X: int, M: int, K: int, u: int, p: int)
    requires 0 <= K < p && 0 <= u < DV
    ensures X + M * K + p * (u * M) == X + M * (K + u * p) && 0 <= K + u * p < DV * p
  {
    MulAtLeast(p, u, 0);
    MulAtLeast(p, DV - 1, u);
    Expand(M, K, u * p);
    assert p * (u * M) == M * (u * p);
  }

  /** One round of `montReduce`. */
  method ReduceRound(x: BigInteger, m: BigInteger, mp: int, i: nat, ghost X: int, ghost K: int) returns (ghost K': int)
    requires x != m && m.WF() && m.s == 0 && i < m.t && 0 <= mp < DV && Cong(m.digits[0] * mp, -1, DV)
    requires 0 < m.Value() && 0 <= X < m.Value() * P(m.t) && MontState(x.digits, m.t, i, X, m.Value(), K)
    modifies x`digits
    ensures MontState(x.digits, m.t, i + 1, X, m.Value(), K')
  {
    var n := m.t;
    ghost var M, w0, e := m.Value(), x.digits, i + n;
    VBound(m.digits, 0, n);
    var u0 := MontDigit(x.digits[i], mp);
    var c := m.Am(0, u0, x, i, 0, n);
    ghost var w2 := x.digits;
    VanishingWord(w0, w2, i, e, c, m.digits, n, mp);
    x.digits := x.digits[i + n := x.digits[i + n] + c];
    RoundValue(w0, w2, x.digits, i, e, 2 * n + 1, c, u0 * M);
    NextMultiple(X, M, K, u0, P(i));
    K' := K + u0 * P(i);
    MontFits(n, i + 1, X, M, K');
    PropagateCarry(x, i + n, 2 * n + 1);
  }

  /** Zero words on top, one more than twice the words of the modulus. */
  method Pad(x: BigInteger, n: nat)
    requires x.WF() && x.s == 0 && x.t <= 2 * n + 1
    modifies x
    ensures x.s == 0 && x.t == 2 * n + 1 && IsDigits(x.digits, 0, 2 * n + 1)
    ensures V(x.digits, 0, 2 * n + 1, 0) == old(x.Value())
  {
    while x.t <= 2 * n
      invariant x.WF() && x.s == 0 && x.t <= 2 * n + 1 && x.Value() == old(x.Value())
    {
      ghost var d := x.digits;
      x.digits := Put(x.digits, x.t, 0);
      VSnoc(d, x.digits, 0, x.t, 0);
      x.t := x.t + 1;
    }
  }

  /** A product below `M*DV^n` has at most `2*n` words. */
  lemma ProductWords(x: seq<int>, t: nat, n: nat, M: int)
    requires IsDigits(x, 0, t) && (t > 0 ==> x[t - 1] != 0) && V(x, 0, t, 0) < M * P(n) && 0 < M <= P(n)
    ensures t <= 2 * n
  {
    LengthBound(x, t, 0);
    MulAtLeast(P(n), P(n), M);
    PAdd(n, n);
    if t > 2 * n {
      PMonotone(2 * n, t - 1);
    }
  }

  /** What is left above the zero words. */
  lemma MontQuotient(x: seq<int>, n: nat, X: int, M: int, K: int)
    requires MontState(x, n, n, X, M, K) && 0 < M && 0 <= X < M * P(n)
    ensures var q := V(x, 0, 2 * n + 1, 0) / P(n); 0 <= q < 2 * M && Cong(q * P(n), X, M)
  {
    var hi, p := V(x, n, 2 * n + 1, 0), P(n);
    VSplit(x, 0, n, 2 * n + 1, 0);
    VZeros(x, 0, n, hi);
    VBound(x, n, 2 * n + 1);
    MontResult(hi, p, X, M, K);
  }

  lemma MontResult(hi: int, p: int, X: int, M: int, K: int)
    requires p > 0 && 0 < M && 0 <= hi && p * hi == X + M * K && 0 <= K < p && 0 <= X < M * p
    ensures p * hi / p == hi < 2 * M && Cong(hi * p, X, M)
  {
    DivUnique(p * hi, p, hi, 0);
    MulAtLeast(M, p, K);
    if hi >= 2 * M {
      MulAtLeast(p, hi, 2 * M);
    }
    CongIntro(hi * p, X, M, K);
  }

  /** `x = x/R mod m` for `R == DV^m.t`. */
  method MontReduce(x: BigInteger, m: BigInteger, mp: int)
    requires x != m && x.Valid() && x.s == 0 && m.Valid() && m.s == 0 && 0 < m.t
    requires 0 <= mp < DV && Cong(m.digits[0] * mp, -1, DV) && 0 < m.Value() && x.Value() < m.Value() * P(m.t)
    modifies x
    ensures x.Valid() && x.s == 0 && 0 <= x.Value() < m.Value()
    ensures Cong(x.Value() * P(m.t), old(x.Value()), m.Value())
  {
    var n := m.t;
    ghost var X, M, K := x.Value(), m.Value(), 0;
    VBound(x.digits, 0, x.t);
    VBound(m.digits, 0, n);
    ProductWords(x.digits, x.t, n, M);
    Pad(x, n);
    var i := 0;
    while i < n
      invariant 0 <= i <= n && MontState(x.digits, n, i, X, M, K) && x.s == 0 && x.t == 2 * n + 1
    {
      K := ReduceRound(x, m, mp, i, X, K);
      i := i + 1;
    }
    MontQuotient(x.digits, n, X, M, K);
    MontFinish(x, m, X);
  }

  /** Drop the cleared words, and subtract the modulus once if it fits. */
  method MontFinish(x: BigInteger, m: BigInteger, ghost X: int)
    requires x != m && x.WF() && x.s == 0 && m.Valid() && m.s == 0 && 0 < m.Value()
    requires 0 <= x.Value() / P(m.t) < 2 * m.Value() && Cong(x.Value() / P(m.t) * P(m.t), X, m.Value())
    modifies x
    ensures x.Valid() && x.s == 0 && 0 <= x.Value() < m.Value() && Cong(x.Value() * P(m.t), X, m.Value())
  {
    ghost var M := m.Value();
    x.Clamp();
    x.DRShiftTo(m.t, x);
    ghost var q := x.Value();
    var c := x.CompareTo(m);
    if c >= 0 {
      x.SubTo(m, x);
      SubtractModulus(q, M, P(m.t), X);
      VFits(x.digits, 0, x.t, x.s);
    }
  }

  lemma SubtractModulus(q: int, M: int, p: int, X: int)
    requires M > 0 && Cong(q * p, X, M)
    ensures Cong((q - M) * p, X, M)
  {
    CongIntro((q - M) * p, q * p, M, -p);
    CongTrans((q - M) * p, q * p, X, M);
  }
}
