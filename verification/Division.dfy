/** Long division by estimated quotient digits (HAC 14.20). */
module Division {
  import opened JsInt
  import opened Digits
  import opened BigIntegers
  import opened Multiplication

  // ----- the quotient digit and its estimate

  /** Subtracting `k` times the divisor as adding `k` times its complement `W`: the top word `g`
      shows whether `k` exceeds the true digit `q`, and for the true digit the remainder is left. */
  lemma Trial(rem: int, U: int, W: int, p: int, k: int, q: int, low: int, g: int)
    requires 0 <= rem && 0 < U && 0 <= W && p == U + W && q == rem / U && 0 <= q <= k
    requires 0 <= low < p && low + p * g == rem + k * W
    ensures k > q ==> 0 <= g < k
    ensures k == q ==> g == k && low == rem - k * U == rem % U
  {
    Expand(k, U, W);
    assert low + p * g == rem - k * U + p * k;
    MulAtLeast(W, k, 0);
    if g < 0 {
      MulAtLeast(p, -1, g);
    }
    if k > q {
      MulAtLeast(U, k, q + 1);
      if g >= k {
        MulAtLeast(p, g, k);
      }
    } else if g > k {
      MulAtLeast(p, g, k + 1);
    } else if g < k {
      MulAtLeast(p, k, g + 1);
    }
  }

  lemma DivAtLeast(x: int, y: int, q: int)
    requires y > 0 && q * y <= x
    ensures q <= x / y
  {
    if x / y < q {
      MulAtLeast(y, q, x / y + 1);
    }
  }

  lemma DivBelow(x: int, y: int, q: int)
    requires y > 0 && x < q * y
    ensures x / y < q
  {
    if x / y >= q {
      MulAtLeast(y, x / y, q);
    }
  }

  /** The estimate from the top words is never too small: `A` holds the two top words of the
      remainder, `p` their weight, and `yt` the top 52 bits of the divisor. */
  lemma EstimateIsUpperBound(rem: int, U: int, A: int, p: int, yt: int)
    requires 0 <= rem < p * (A + 1) && 0 < U && 0 < p && 0 < yt && yt * p <= U * 0x100_0000
    ensures rem / U <= 0x100_0000 * (A + 16) / yt
  {
    var q := rem / U;
    MulAtLeast(q, U * 0x100_0000, yt * p);
    Assoc(q, U, 0x100_0000);
    Assoc(q, yt, p);
    if q * yt >= 0x100_0000 * (A + 1) {
      MulAtLeast(p, q * yt, 0x100_0000 * (A + 1));
    }
    DivAtLeast(0x100_0000 * (A + 16), yt, q);
  }

  /** The estimate is at most one above the largest digit. */
  lemma EstimateFits(a: int, b: int, y0: int, yt: int)
    requires 0 <= a < y0 && 0 <= b < DV && 0x800_0000 <= y0 < DV && y0 * 0x100_0000 <= yt
    ensures 0 <= 0x100_0000 * (a * DV + b + 16) / yt <= DV
  {
    MulAtLeast(DV + 1, yt, y0 * 0x100_0000);
    DivBelow(0x100_0000 * (a * DV + b + 16), yt, DV + 1);
    DivAtLeast(0x100_0000 * (a * DV + b + 16), yt, 0);
  }

  /** When the estimate for a zero top word is positive, the next word is not zero. */
  lemma EstimateOfZero(b: int, y0: int, yt: int)
    requires 0 <= b && 0x800_0000 <= y0 && y0 * 0x100_0000 <= yt && 0x100_0000 * (b + 16) / yt > 0
    ensures b > 0
  {
    if b == 0 {
      DivBelow(0x100_0000 * 16, yt, 1);
    }
  }

  /** `Math.floor(a*d1 + (b + e)*d2)` in exact arithmetic. */
  function EstimateDigit(a: int, b: int, yt: int): (qd: int)
    requires yt > 0
    ensures qd == 0x100_0000 * (a * DV + b + 16) / yt
  {
    var d1: real := 0x10_0000_0000_0000 as real / yt as real;
    var d2: real := 0x100_0000 as real / yt as real;
    var e := 16;
    EstimateIsQuotient(a, b, yt);
    (a as real * d1 + (b + e) as real * d2).Floor
  }

  lemma EstimateIsQuotient(a: int, b: int, yt: int)
    requires yt > 0
    ensures (a as real * (0x10_0000_0000_0000 as real / yt as real) + (b + 16) as real * (0x100_0000 as real / yt as real)).Floor
         == 0x100_0000 * (a * DV + b + 16) / yt
  {
    var n := 0x100_0000 * (a * DV + b + 16);
    var x := a as real * (0x10_0000_0000_0000 as real / yt as real) + (b + 16) as real * (0x100_0000 as real / yt as real);
    ScaledSum(a as real, (b + 16) as real, yt as real);
    assert x * yt as real == n as real;
    FloorOfQuotient(n, yt, x);
  }

  lemma ScaledSum(a: real, b: real, y: real)
    requires y > 0.0
    ensures (a * (0x10_0000_0000_0000 as real / y) + b * (0x100_0000 as real / y)) * y
         == a * 0x10_0000_0000_0000 as real + b * 0x100_0000 as real
  {
    var u, v := 0x10_0000_0000_0000 as real / y, 0x100_0000 as real / y;
    assert u * y == 0x10_0000_0000_0000 as real && v * y == 0x100_0000 as real;
    assert (a * u + b * v) * y == a * (u * y) + b * (v * y);
  }

  lemma FloorOfQuotient(n: int, y: int, x: real)
    requires y > 0 && x * y as real == n as real
    ensures x.Floor == n / y
  {
    var q, m := n / y, n % y;
    assert n as real == q as real * y as real + m as real;
    if x < q as real {
      RealMul(x, q as real, y as real);
    } else if x >= q as real + 1.0 {
      RealMulWeak(q as real + 1.0, x, y as real);
    }
  }

  lemma RealMul(a: real, b: real, c: real)
    requires a < b && c > 0.0
    ensures a * c < b * c
  {}

  lemma RealMulWeak(a: real, b: real, c: real)
    requires a <= b && c > 0.0
    ensures a * c <= b * c
  {}

  // ----- the remainder register

  /** The words of the register up to `top`: at most `rt` of them in use, the rest zero; from word
      `e` up they hold the quotient digits found so far, below it `z`. */
  ghost predicate Register(R: seq<int>, rt: nat, e: nat, top: nat, hi: int, z: int) {
    && IsDigits(R, 0, top) && rt <= top && e <= top
    && (forall k :: rt <= k < top ==> R[k] == 0)
    && V(R, e, top, 0) == hi && V(R, 0, e, 0) == z
  }

  lemma RegisterValue(R: seq<int>, rt: nat, e: nat, top: nat, hi: int, z: int)
    requires Register(R, rt, e, top, hi, z)
    ensures V(R, 0, rt, 0) == V(R, 0, top, 0) == z + P(e) * hi
    ensures 0 <= z < P(e) && hi >= 0
  {
    VSplit(R, 0, rt, top, 0);
    VZeros(R, rt, top, 0);
    VSplit(R, 0, e, top, 0);
    VTop(R, 0, e, hi);
    VBound(R, 0, e);
    VBound(R, e, top);
  }

  lemma SplitUnique(p: int, a: int, h: int, b: int, g: int)
    requires 0 <= a < p && 0 <= b < p && a + p * h == b + p * g
    ensures a == b && h == g
  {
    DivUnique(a + p * h, p, h, a);
    DivUnique(a + p * h, p, g, b);
  }

  /** A register known by its total value. */
  lemma RegisterFromValue(R: seq<int>, rt: nat, e: nat, top: nat, hi: int, z: int)
    requires IsDigits(R, 0, top) && rt <= top && e <= top && forall k :: rt <= k < top ==> R[k] == 0
    requires V(R, 0, rt, 0) == z + P(e) * hi && 0 <= z < P(e)
    ensures Register(R, rt, e, top, hi, z)
  {
    var h, a := V(R, e, top, 0), V(R, 0, e, 0);
    RegisterValue(R, rt, e, top, h, a);
    SplitUnique(P(e), a, h, z, hi);
  }

  /** A smaller value does not need more words. */
  lemma NoNewWord(R: seq<int>, rt: nat, m: nat, v: int)
    requires IsDigits(R, 0, rt) && (rt > 0 ==> R[rt - 1] != 0) && rt <= m + 1
    requires V(R, 0, rt, 0) == v < P(m)
    ensures rt <= m
  {
    LengthBound(R, rt, 0);
  }

  lemma Bigger(R: seq<int>, rt: nat, n: nat)
    requires IsDigits(R, 0, rt) && V(R, 0, rt, 0) >= P(n)
    ensures rt > n
  {
    VBound(R, 0, rt);
    if rt <= n {
      PMonotone(rt, n);
    }
  }

  /** `r.subTo(t, r)` on the register, when `t` does not exceed the part below word `e`. */
  method SubRegister(r: BigInteger, t: BigInteger, ghost e: nat, ghost top: nat, ghost hi: int, ghost z: int)
    requires r != t && r.s == 0 && t.WF() && t.s == 0 && t.t <= e
    requires Register(r.digits, r.t, e, top, hi, z) && t.Value() <= z
    modifies r
    ensures r.s == 0 && r.Valid() && Register(r.digits, r.t, e, top, hi, z - t.Value())
    ensures |r.digits| >= |old(r.digits)| && forall k :: top <= k < |old(r.digits)| ==> r.digits[k] == old(r.digits)[k]
  {
    ghost var R, m := r.digits, Max(r.t, t.t);
    RegisterValue(R, r.t, e, top, hi, z);
    VBound(R, 0, r.t);
    VBound(t.digits, 0, t.t);
    PMonotone(r.t, m);
    MulAtLeast(P(e), hi, 0);
    r.SubTo(t, r);
    VFits(r.digits, 0, r.t, r.s);
    NoNewWord(r.digits, r.t, m, r.Value());
    RegisterFromValue(r.digits, r.t, e, top, hi, z - t.Value());
  }

  // ----- one quotient digit

  /** What the leading words of the normalized divisor say about its value `Y`. */
  ghost predicate Leading(Y: int, ys: nat, y0: int, yt: int) {
    && ys >= 1 && 0x800_0000 <= y0 < DV && y0 * 0x100_0000 <= yt
    && y0 * P(ys - 1) <= Y < (y0 + 1) * P(ys - 1)
    && yt * P(ys - 1) <= Y * 0x100_0000
  }

  /** The quotient digit tried first. */
  function FirstTry(a: int, b: int, y0: int, yt: int): int
    requires yt > 0
  {
    if a == y0 then DM else EstimateDigit(a, b, yt)
  }

  /** The top two words bound the remainder. */
  lemma TopWords(R: seq<int>, i: nat)
    requires i >= 1 && IsDigits(R, 0, i + 1)
    ensures P(i - 1) * (R[i] * DV + R[i - 1]) <= V(R, 0, i + 1, 0) < P(i - 1) * (R[i] * DV + R[i - 1] + 1)
  {
    VSnoc(R, R, 0, i, 0);
    VSnoc(R, R, 0, i - 1, R[i]);
    VTop(R, 0, i - 1, R[i] * DV + R[i - 1]);
    VBound(R, 0, i - 1);
    Expand(P(i - 1), R[i] * DV + R[i - 1], 1);
  }

  lemma TopWordBound(a: int, b: int, rem: int, p: int, y0: int, Y: int, pj: int, p1: int)
    requires 0 <= b && p > 0 && pj > 0 && p * (a * DV + b) <= rem < DV * (Y * pj) && p == p1 * pj && Y < (y0 + 1) * p1
    ensures a <= y0
  {
    if a > y0 {
      MulAtLeast(pj, (y0 + 1) * p1, Y);
      Assoc(y0 + 1, p1, pj);
      MulAtLeast(p, a * DV + b, DV * (y0 + 1));
      Assoc(DV, y0 + 1, p);
    }
  }

  /** The first try is never below the true digit, and nothing above zero is tried for a zero
      digit unless the word below the top is set. `p` is the weight of that word. */
  lemma FirstTryBounds(rem: int, Y: int, pj: int, p1: int, p: int, a: int, b: int, y0: int, yt: int)
    requires 0 <= a && 0 <= b < DV && p1 > 0 && pj > 0 && p == p1 * pj > 0
    requires 0x800_0000 <= y0 < DV && y0 * 0x100_0000 <= yt
    requires y0 * p1 <= Y < (y0 + 1) * p1 && yt * p1 <= Y * 0x100_0000
    requires 0 <= p * (a * DV + b) <= rem < p * (a * DV + b + 1) && rem < DV * (Y * pj)
    ensures Y * pj > 0
    ensures 0 <= rem / (Y * pj) <= FirstTry(a, b, y0, yt) <= DV && rem / (Y * pj) < DV
    ensures rem / (Y * pj) == 0 < FirstTry(a, b, y0, yt) ==> rem >= p
  {
    var U := Y * pj;
    MulAtLeast(p1, y0, 1);
    MulAtLeast(pj, Y, 1);
    TopWordBound(a, b, rem, p, y0, Y, pj, p1);
    DivAtLeast(rem, U, 0);
    DivBelow(rem, U, DV);
    if a != y0 {
      MulAtLeast(pj, Y * 0x100_0000, yt * p1);
      Assoc(yt, p1, pj);
      EstimateIsUpperBound(rem, U, a * DV + b, p, yt);
      EstimateFits(a, b, y0, yt);
    }
    if rem / U == 0 {
      ZeroDigit(rem, U, a, b, p, y0, yt, p1, pj, Y);
    }
  }

  lemma ZeroDigit(rem: int, U: int, a: int, b: int, p: int, y0: int, yt: int, p1: int, pj: int, Y: int)
    requires 0 <= a <= y0 && 0 <= b && 0x800_0000 <= y0 < DV && y0 * 0x100_0000 <= yt && p1 > 0 && pj > 0 && p == p1 * pj > 0
    requires p * (a * DV + b) <= rem && 0 < U == Y * pj && rem / U == 0 && Y < (y0 + 1) * p1
    ensures FirstTry(a, b, y0, yt) > 0 ==> rem >= p
  {
    MulAtLeast(pj, (y0 + 1) * p1, Y);
    Assoc(y0 + 1, p1, pj);
    MulAtLeast(p, DV, y0 + 1);
    if a >= 1 {
      MulAtLeast(p, a * DV + b, DV);
    } else if FirstTry(a, b, y0, yt) > 0 {
      EstimateOfZero(b, y0, yt);
      MulAtLeast(p, b, 1);
    }
  }

  /** The "negative" divisor: `DV^ys - Y` in exactly `ys` words. */
  ghost predicate Complement(y: BigInteger, ys: nat, Y: int)
    reads y
  {
    y.t == ys && y.s == 0 && IsDigits(y.digits, 0, ys) && 0 < Y <= P(ys) && V(y.digits, 0, ys, 0) == P(ys) - Y
  }

  lemma Weights(Y: int, ys: nat, j: nat)
    ensures Y * P(j) + (P(ys) - Y) * P(j) == P(ys + j)
  {
    PAdd(ys, j);
  }

  /** The register after `k` times the complement was added at word `j`: what its word `ys+j` says. */
  lemma TriedDigit(R: seq<int>, rt: nat, ys: nat, j: nat, top: nat, hi: int, rem: int, Y: int, k: int)
    requires 0 < Y <= P(ys) && 0 <= rem && ys + j < top
    requires Register(R, rt, ys + j + 1, top, hi, rem + k * ((P(ys) - Y) * P(j)))
    requires Y * P(j) > 0 && 0 <= rem / (Y * P(j)) <= k
    ensures k > rem / (Y * P(j)) ==> 0 <= R[ys + j] < k
    ensures k == rem / (Y * P(j)) ==> R[ys + j] == k && V(R, 0, ys + j, 0) == rem % (Y * P(j))
  {
    var i := ys + j;
    VSnoc(R, R, 0, i, 0);
    VTop(R, 0, i, R[i]);
    VBound(R, 0, i);
    Weights(Y, ys, j);
    MulAtLeast(P(j), P(ys) - Y, 0);
    Trial(rem, Y * P(j), (P(ys) - Y) * P(j), P(i), k, rem / (Y * P(j)), V(R, 0, i, 0), R[i]);
  }

  /** Add `qd` times the complement at word `j`, and the carry to the word above it. */
  method TryDigit(r: BigInteger, y: BigInteger, ys: nat, j: nat, qd: int,
                  ghost Y: int, ghost top: nat, ghost hi: int, ghost rem: int)
    requires r != y && Complement(y, ys, Y) && r.t > ys + j && Y * P(j) > 0
    requires Register(r.digits, r.t, ys + j + 1, top, hi, rem)
    requires 0 <= rem / (Y * P(j)) <= qd <= DV && rem / (Y * P(j)) < DV
    modifies r`digits
    ensures Register(r.digits, r.t, ys + j + 1, top, hi, rem + qd * ((P(ys) - Y) * P(j)))
    ensures |r.digits| == |old(r.digits)|
  {
    ghost var R, i := r.digits, ys + j;
    RegisterValue(R, r.t, i + 1, top, hi, rem);
    var c := y.Am(0, qd, r, j, 0, ys);
    ghost var mid := r.digits;
    r.digits := r.digits[ys + j := r.digits[ys + j] + c];
    TriedWords(R, mid, r.digits, ys, j, c, qd, Y, rem);
    VFrame(R, r.digits, i + 1, top, 0);
  }

  /** The words after the kernel call, and that the top one is a digit. */
  lemma TriedWords(R: seq<int>, mid: seq<int>, R': seq<int>, ys: nat, j: nat, c: int, qd: int, Y: int, rem: int)
    requires ys + j < |R| == |mid| && IsDigits(R, 0, ys + j + 1) && IsDigits(mid, j, ys + j)
    requires forall k :: 0 <= k < |R| && !(j <= k < ys + j) ==> mid[k] == R[k]
    requires R' == mid[ys + j := mid[ys + j] + c]
    requires V(mid, j, j + ys, c) == V(R, j, j + ys, 0) + qd * (P(ys) - Y)
    requires rem == V(R, 0, ys + j + 1, 0) && 0 < Y <= P(ys) && Y * P(j) > 0
    requires 0 <= rem / (Y * P(j)) <= qd <= DV && rem / (Y * P(j)) < DV
    ensures IsDigits(R', 0, ys + j + 1)
    ensures V(R', 0, ys + j + 1, 0) == rem + qd * ((P(ys) - Y) * P(j))
  {
    var i, g := ys + j, mid[ys + j] + c;
    VSnoc(R, R, 0, i, 0);
    VSnoc(mid, R', 0, i, 0);
    RowWeight(R, mid, j, i, R[i], c, qd * (P(ys) - Y));
    Reorder(P(j), qd, P(ys) - Y);
    VTop(mid, 0, i, g);
    VBound(mid, 0, i);
    VBound(R, 0, i + 1);
    Weights(Y, ys, j);
    MulAtLeast(P(j), P(ys) - Y, 0);
    Trial(rem, Y * P(j), (P(ys) - Y) * P(j), P(i), qd, rem / (Y * P(j)), V(mid, 0, i, 0), g);
  }

  lemma Reorder(p: int, k: int, w: int)
    ensures p * (k * w) == k * (w * p)
  {}

  /** Subtract the shifted complement `t` once: the digit tried becomes one less. */
  method TakeBack(r: BigInteger, t: BigInteger, ghost ys: nat, ghost j: nat, qd: int,
                  ghost Y: int, ghost top: nat, ghost hi: int, ghost rem: int)
    requires r != t && r.s == 0 && 0 < Y <= P(ys) && ys + j < top && Y * P(j) > 0 && 0 <= rem
    requires t.WF() && t.s == 0 && t.t == ys + j && t.Value() == P(j) * (P(ys) - Y)
    requires Register(r.digits, r.t, ys + j + 1, top, hi, rem + qd * ((P(ys) - Y) * P(j)))
    requires 0 <= rem / (Y * P(j)) < qd
    modifies r
    ensures r.s == 0 && r.Valid()
    ensures Register(r.digits, r.t, ys + j + 1, top, hi, rem + (qd - 1) * ((P(ys) - Y) * P(j)))
    ensures qd - 1 > rem / (Y * P(j)) ==> 0 <= r.digits[ys + j] < qd - 1
    ensures qd - 1 == rem / (Y * P(j)) ==> r.digits[ys + j] == qd - 1
  {
    ghost var W := (P(ys) - Y) * P(j);
    MulAtLeast(P(j), P(ys) - Y, 0);
    StepDown(rem, qd, W);
    hide P, V, Register;
    SubRegister(r, t, ys + j + 1, top, hi, rem + qd * W);
    TriedDigit(r.digits, r.t, ys, j, top, hi, rem, Y, qd - 1);
  }

  /** The digit tried was too large: take the complement away again until it is the true one. */
  method AddBack(r: BigInteger, y: BigInteger, t: BigInteger, ys: nat, j: nat, qd0: int,
                 ghost Y: int, ghost top: nat, ghost hi: int, ghost rem: int)
    requires r != y && r != t && y != t && r.s == 0 && Complement(y, ys, Y) && ys + j < top && Y * P(j) > 0 && 0 <= rem
    requires Register(r.digits, r.t, ys + j + 1, top, hi, rem + qd0 * ((P(ys) - Y) * P(j)))
    requires 0 <= rem / (Y * P(j)) < qd0
    modifies r, t
    ensures r.s == 0 && r.Valid()
    ensures Register(r.digits, r.t, ys + j + 1, top, hi, rem + rem / (Y * P(j)) * ((P(ys) - Y) * P(j)))
  {
    ghost var q := rem / (Y * P(j));
    y.DLShiftTo(j, t);
    TakeBack(r, t, ys, j, qd0, Y, top, hi, rem);
    var qd := qd0 - 1;
    while r.digits[ys + j] < qd
      invariant q <= qd && r.s == 0 && r.Valid()
      invariant Register(r.digits, r.t, ys + j + 1, top, hi, rem + qd * ((P(ys) - Y) * P(j)))
      invariant qd > q ==> 0 <= r.digits[ys + j] < qd
      invariant qd == q ==> r.digits[ys + j] == qd
      modifies r
      decreases qd - q
    {
      TakeBack(r, t, ys, j, qd, Y, top, hi, rem);
      qd := qd - 1;
    }
  }

  lemma StepDown(rem: int, k: int, W: int)
    requires 0 <= rem && 0 <= W && 1 <= k
    ensures W <= rem + k * W && rem + k * W - W == rem + (k - 1) * W
  {
    MulAtLeast(W, k, 1);
  }

  /** One round of the loop: word `ys+j` of the register becomes the quotient digit. */
  method DivStep(r: BigInteger, y: BigInteger, t: BigInteger, ys: nat, j: nat, y0: int, yt: int,
                 ghost Y: int, ghost top: nat, ghost hi: int, ghost rem: int)
    requires r != y && r != t && y != t && r.s == 0 && Complement(y, ys, Y) && Leading(Y, ys, y0, yt)
    requires Register(r.digits, r.t, ys + j + 1, top, hi, rem) && r.t > ys + j && rem < DV * (Y * P(j))
    modifies r, t
    ensures r.s == 0 && r.t >= ys + j && Y * P(j) > 0 && rem >= 0
    ensures Register(r.digits, r.t, ys + j, top, rem / (Y * P(j)) + DV * hi, rem % (Y * P(j)))
  {
    ghost var R := r.digits;
    var i := ys + j;
    TopWords(R, i);
    PAdd(ys - 1, j);
    RegisterValue(R, r.t, i + 1, top, hi, rem);
    MulAtLeast(P(i - 1), R[i] * DV + R[i - 1], 0);
    FirstTryBounds(rem, Y, P(j), P(ys - 1), P(i - 1), R[i], R[i - 1], y0, yt);
    var qd := FirstTry(r.digits[i], r.digits[i - 1], y0, yt);
    TryDigit(r, y, ys, j, qd, Y, top, hi, rem);
    TriedDigit(r.digits, r.t, ys, j, top, hi, rem, Y, qd);
    if r.digits[i] < qd {
      AddBack(r, y, t, ys, j, qd, Y, top, hi, rem);
      TriedDigit(r.digits, r.t, ys, j, top, hi, rem, Y, rem / (Y * P(j)));
      LongEnough(r.digits, r.t, ys, j, top, hi, rem, Y);
    }
    assert V(r.digits, i, top, 0) == r.digits[i] + DV * V(r.digits, i + 1, top, 0);
  }

  /** After a correction the register still reaches the word below the digit just found. */
  lemma LongEnough(R: seq<int>, rt: nat, ys: nat, j: nat, top: nat, hi: int, rem: int, Y: int)
    requires ys >= 1 && 0 < Y <= P(ys) && 0 <= rem && ys + j < top && Y * P(j) > 0
    requires Register(R, rt, ys + j + 1, top, hi, rem + rem / (Y * P(j)) * ((P(ys) - Y) * P(j)))
    requires R[ys + j] == rem / (Y * P(j))
    requires rem / (Y * P(j)) == 0 ==> rem >= P(ys + j - 1)
    ensures rt >= ys + j
  {
    if rem / (Y * P(j)) == 0 {
      RegisterValue(R, rt, ys + j + 1, top, hi, rem);
      MulAtLeast(P(ys + j + 1), hi, 0);
      Bigger(R, rt, ys + j - 1);
    }
  }

  // ----- normalization

  lemma SmallPowers()
    ensures Pow2(0) == 1 && Pow2(1) == 2 && Pow2(2) == 4 && Pow2(4) == 0x10 && Pow2(8) == 0x100 && Pow2(16) == 0x1_0000
  {
    Pow2Add(4, 4);
    Pow2Add(8, 8);
  }

  lemma ShiftFurther(x: int, k: nat, n: nat)
    ensures x / Pow2(k) / Pow2(n) == x / Pow2(k + n)
  {
    Pow2Add(k, n);
    DivTwice(x, Pow2(k), Pow2(n));
  }

  lemma QuotientRange(x: int, p: int)
    requires p > 0 && 0 <= x < p * p
    ensures 0 <= x / p < p && (x / p == 0 ==> x < p)
  {
    DivBelow(x, p, p);
    DivAtLeast(x, p, 0);
    if x >= p {
      DivAtLeast(x, p, 1);
    }
  }

  /** One test of `nbits`: shift by `k` and count `k` bits if something is left; `p` is `2^k`. */
  method ShiftIfAbove(x: int, r: int, p: int, k: nat, ghost x0: int) returns (x': int, r': int)
    requires p == Pow2(k) && r >= 1 && x == x0 / Pow2(r - 1) && 0 <= x < p * p && (x0 > 0 ==> x > 0)
    ensures r <= r' <= r + k && x' == x0 / Pow2(r' - 1) && 0 <= x' < p && (x0 > 0 ==> x' > 0) && (x == 0 ==> x' == 0 && r' == r)
  {
    x', r' := x, r;
    ShiftFurther(x0, r - 1, k);
    QuotientRange(x, p);
    if x / p != 0 {
      x', r' := x / p, r + k;
    }
  }

  /** The bit length of `x0`; one for zero. */
  method NBits(x0: int) returns (r: int)
    requires 0 <= x0 < 0x1_0000_0000
    ensures 1 <= r <= 32 && (x0 > 0 ==> Pow2(r - 1) <= x0 < Pow2(r)) && (x0 == 0 ==> r == 1)
  {
    SmallPowers();
    var x;
    x, r := ShiftIfAbove(x0, 1, 0x1_0000, 16, x0);
    x, r := ShiftIfAbove(x, r, 0x100, 8, x0);
    x, r := ShiftIfAbove(x, r, 0x10, 4, x0);
    x, r := ShiftIfAbove(x, r, 4, 2, x0);
    x, r := ShiftIfAbove(x, r, 2, 1, x0);
    BitLength(x0, x, Pow2(r - 1));
  }

  lemma BitLength(x0: int, x: int, p: int)
    requires p > 0 && 0 <= x0 && x == x0 / p && x < 2 && (x0 > 0 ==> x > 0)
    ensures x0 > 0 ==> p <= x0 < 2 * p
  {}

  /** `y0` and `yt` as the source takes them from the words of the divisor. */
  lemma LeadingWords(y: seq<int>, ys: nat)
    requires ys >= 1 && IsDigits(y, 0, ys) && y[ys - 1] >= 0x800_0000
    ensures Leading(V(y, 0, ys, 0), ys, y[ys - 1], y[ys - 1] * 0x100_0000 + if ys > 1 then y[ys - 2] / 16 else 0)
  {
    var y0, Y := y[ys - 1], V(y, 0, ys, 0);
    VSnoc(y, y, 0, ys - 1, 0);
    VTop(y, 0, ys - 1, y0);
    VBound(y, 0, ys - 1);
    LeadingWord(V(y, 0, ys - 1, 0), y0, P(ys - 1), Y);
    if ys > 1 {
      SecondWord(y, ys);
    }
  }

  lemma LeadingWord(low: int, y0: int, p: int, Y: int)
    requires 0 <= low < p && Y == low + p * y0
    ensures y0 * p <= Y < (y0 + 1) * p && (y0 * 0x100_0000 + 0) * p <= Y * 0x100_0000
  {}

  lemma SecondWord(y: seq<int>, ys: nat)
    requires ys > 1 && IsDigits(y, 0, ys)
    ensures (y[ys - 1] * 0x100_0000 + y[ys - 2] / 16) * P(ys - 1) <= V(y, 0, ys, 0) * 0x100_0000
  {
    var y0, y1 := y[ys - 1], y[ys - 2];
    VSnoc(y, y, 0, ys - 1, 0);
    VSnoc(y, y, 0, ys - 2, y0);
    VTop(y, 0, ys - 2, y1 + DV * y0);
    VBound(y, 0, ys - 2);
    TopBits(y0, y1, P(ys - 2), V(y, 0, ys, 0));
  }

  lemma TopBits(y0: int, y1: int, p: int, Y: int)
    requires p > 0 && p * (y1 + DV * y0) <= Y
    ensures (y0 * 0x100_0000 + y1 / 16) * (DV * p) <= Y * 0x100_0000
  {
    MulAtLeast(p, (y1 + DV * y0) * 0x100_0000, (y0 * 0x100_0000 + y1 / 16) * DV);
    Assoc(y0 * 0x100_0000 + y1 / 16, DV, p);
    Assoc(p, y1 + DV * y0, 0x100_0000);
  }

  /** Shifting out the leading zero bits of the top word leaves the word count. */
  lemma NormalizedTop(m: seq<int>, n: nat, y: seq<int>, ys: nat, nsh: nat)
    requires n >= 1 && IsDigits(m, 0, n) && nsh < DB && Pow2(DB - nsh - 1) <= m[n - 1] < Pow2(DB - nsh)
    requires IsDigits(y, 0, ys) && (ys > 0 ==> y[ys - 1] != 0) && V(y, 0, ys, 0) == Pow2(nsh) * V(m, 0, n, 0)
    ensures ys == n && y[n - 1] >= 0x800_0000
  {
    var d, p, M, b := m[n - 1], P(n - 1), V(m, 0, n, 0), Pow2(nsh);
    VSnoc(m, m, 0, n - 1, 0);
    VTop(m, 0, n - 1, d);
    VBound(m, 0, n - 1);
    PowSplit(nsh);
    Pow2Add(1, DB - nsh - 1);
    NormalizedRange(V(m, 0, n - 1, 0), d, p, b, Pow2(DB - nsh - 1), M);
    WordsOfValue(y, ys, n);
  }

  lemma NormalizedRange(low: int, d: int, p: int, b: int, h: int, M: int)
    requires 0 <= low < p && M == low + p * d && b > 0 && h > 0 && b * (2 * h) == DV && h <= d < 2 * h
    ensures p * 0x800_0000 <= b * M < p * DV
  {
    Expand(b, low, p * d);
    MulAtLeast(b, low, 0);
    MulAtLeast(b, p - 1, low);
    MulAtLeast(p * b, d, h);
    MulAtLeast(p * b, 2 * h - 1, d);
    assert b * (p * d) == p * b * d && p * b * h == p * (b * h) && p * b * (2 * h - 1) == p * (b * (2 * h)) - p * b;
    assert b * (p - 1) == p * b - b;
  }

  /** A number in the top half of the numbers of `n` words. */
  lemma WordsOfValue(y: seq<int>, ys: nat, n: nat)
    requires n >= 1 && IsDigits(y, 0, ys) && (ys > 0 ==> y[ys - 1] != 0)
    requires P(n - 1) * 0x800_0000 <= V(y, 0, ys, 0) < P(n - 1) * DV
    ensures ys == n && y[n - 1] >= 0x800_0000
  {
    LengthBound(y, ys, 0);
    if ys < n {
      PMonotone(ys, n - 1);
    } else if ys > n {
      PMonotone(n, ys - 1);
    } else {
      VSnoc(y, y, 0, n - 1, 0);
      VTop(y, 0, n - 1, y[n - 1]);
      VBound(y, 0, n - 1);
      if y[n - 1] < 0x800_0000 {
        MulAtLeast(P(n - 1), 0x800_0000 - 1, y[n - 1]);
      }
    }
  }

  /** Shift by `nsh`, or copy when that is zero. */
  method ShiftInto(src: BigInteger, nsh: nat, dst: BigInteger)
    requires src.WF() && src.s == 0 && nsh < DB
    modifies dst
    ensures dst.WF() && dst.s == 0 && dst.Value() == Pow2(nsh) * old(src.Value())
    ensures old(src.Valid()) || nsh > 0 ==> dst.Valid()
    ensures nsh == 0 ==> dst.t == old(src.t)
    ensures nsh > 0 ==> Framed([], dst.digits, old(src.t) + 1, dst.t, 0)
  {
    if nsh > 0 {
      src.LShiftTo(nsh, dst);
    } else {
      src.CopyTo(dst);
    }
  }

  /** Shift divisor and dividend so that the top bit of the divisor's top word is set. A zero
      dividend that is not clamped may lose all its words here. */
  method Normalize(pm: BigInteger, pt: BigInteger, y: BigInteger, r: BigInteger) returns (nsh: nat)
    requires pm.Valid() && pm.s == 0 && 0 < pm.t <= pt.t && pt.WF() && pt.s == 0 && (pt.Valid() || pt.Value() == 0)
    requires y != r && y != pm && y != pt
    modifies y, r
    ensures nsh < DB && y.Valid() && y.s == 0 && y.t == old(pm.t) && y.digits[y.t - 1] >= 0x800_0000
    ensures y.Value() == Pow2(nsh) * old(pm.Value())
    ensures r.WF() && r.s == 0 && r.Value() == Pow2(nsh) * old(pt.Value()) && (old(pt.Valid()) ==> r.Valid())
    ensures r.t >= y.t || ZeroWords(r, y.t, nsh)
  {
    ghost var M, n, T, tn := pm.digits, pm.t, pt.digits, pt.t;
    var b := NBits(pm.digits[pm.t - 1]);
    TopWordBits(M[n - 1], b);
    nsh := DB - b;
    ShiftInto(pm, nsh, y);
    NormalizedTop(M, n, y.digits, y.t, nsh);
    ShiftInto(pt, nsh, r);
    DividendWords(T, tn, r.digits, r.t, Pow2(nsh));
    if r.t < y.t {
      NoWords(T, tn, r.digits, r.t, Pow2(nsh));
    }
  }

  /** What normalization leaves of a zero dividend that was not clamped. */
  ghost predicate ZeroWords(r: BigInteger, ys: nat, nsh: nat)
    reads r
  {
    nsh > 0 && r.t == 0 && ys <= |r.digits| && forall k :: 0 <= k < ys ==> r.digits[k] == 0
  }

  lemma NoWords(T: seq<int>, tn: nat, R: seq<int>, rt: nat, b: int)
    requires tn > 0 && IsDigits(T, 0, tn) && (T[tn - 1] != 0 || V(T, 0, tn, 0) == 0) && b > 0
    requires IsDigits(R, 0, rt) && (rt > 0 ==> R[rt - 1] != 0) && V(R, 0, rt, 0) == b * V(T, 0, tn, 0) && rt < tn
    ensures rt == 0
  {
    DividendWords(T, tn, R, rt, b);
    LengthBound(R, rt, 0);
  }

  lemma TopWordBits(d: int, b: int)
    requires 0 < d < DV && 1 <= b <= 32 && Pow2(b - 1) <= d < Pow2(b)
    ensures b <= DB
  {
    if b > DB {
      PowDB();
      Pow2Monotone(DB, b - 1);
    }
  }

  /** A dividend that is not zero keeps its words. */
  lemma DividendWords(T: seq<int>, tn: nat, R: seq<int>, rt: nat, b: int)
    requires tn > 0 && IsDigits(T, 0, tn) && IsDigits(R, 0, rt) && b > 0 && V(R, 0, rt, 0) == b * V(T, 0, tn, 0)
    ensures T[tn - 1] != 0 ==> rt >= tn
  {
    if T[tn - 1] != 0 {
      LengthBound(T, tn, 0);
      AtLeastOnce(b, V(T, 0, tn, 0));
      Bigger(R, rt, tn - 1);
    }
  }

  lemma AtLeastOnce(b: int, v: int)
    requires b >= 1 && v >= 0
    ensures b * v >= v
  {}

  // ----- the division

  /** Subtracting with a one on top leaves the one above the difference. */
  method SubtractBelowOne(r: BigInteger, t: BigInteger)
    requires r != t && r.WF() && r.s == 0 && t.WF() && t.s == 0 && t.t <= r.t && t.Value() <= r.Value()
    modifies r
    ensures r.s == 0 && r.t == old(r.t) + 1
    ensures Register(r.digits, r.t, old(r.t), old(r.t) + 1, 1, old(r.Value()) - t.Value())
    ensures |r.digits| >= |old(r.digits)| && forall k :: r.t <= k < |old(r.digits)| ==> r.digits[k] == old(r.digits)[k]
  {
    ghost var i, N, R := r.t, r.Value(), r.digits;
    r.digits := Put(r.digits, r.t, 1);
    r.t := r.t + 1;
    VFrame(R, r.digits, 0, i, 0);
    assert V(r.digits, i + 1, i + 1, 0) == 0;
    SubRegister(r, t, i, i + 1, 1, N);
    RegisterValue(r.digits, r.t, i, i + 1, 1, N - t.Value());
    Bigger(r.digits, r.t, i);
  }

  /** The digit above the loop: one when the divisor fits at word `j`. For a dividend without words
      (`j < 0`) the comparison of two empty numbers succeeds and leaves a stray one in word 0. */
  method TopDigit(r: BigInteger, y: BigInteger, t: BigInteger, ys: nat, j: int) returns (ghost hi: int)
    requires r != y && r != t && y != t && r.WF() && r.s == 0 && j == r.t - ys
    requires y.Valid() && y.s == 0 && y.t == ys >= 1 && y.digits[ys - 1] >= 0x800_0000
    requires j < 0 ==> r.t == 0
    modifies r, t
    ensures r.s == 0 && 0 <= hi <= 1 && r.t == old(r.t) + hi
    ensures j >= 0 ==> Register(r.digits, r.t, ys + j, r.t, hi, old(r.Value()) - hi * (P(j) * y.Value()))
    ensures j >= 0 ==> old(r.Value()) - hi * (P(j) * y.Value()) < P(j) * y.Value()
    ensures j < 0 ==> hi == 1 && |r.digits| >= |old(r.digits)| && 1 <= |r.digits| && r.digits[0] == 1
    ensures j < 0 ==> forall k :: 1 <= k < |old(r.digits)| ==> r.digits[k] == old(r.digits)[k]
  {
    y.DLShiftTo(j, t);
    VBound(r.digits, 0, r.t);
    var c := r.CompareTo(t);
    hi := 0;
    if j >= 0 {
      TopWeight(y.digits, ys, j);
      assert V(r.digits, r.t, r.t, 0) == 0;
    }
    if c >= 0 {
      hi := 1;
      SubtractBelowOne(r, t);
      assert V(r.digits, 1, 1, 0) == 0;
    }
  }

  lemma TopWeight(y: seq<int>, ys: nat, j: nat)
    requires ys >= 1 && IsDigits(y, 0, ys) && y[ys - 1] >= 0x800_0000
    ensures P(ys + j) <= 2 * (P(j) * V(y, 0, ys, 0))
  {
    VSnoc(y, y, 0, ys - 1, 0);
    VTop(y, 0, ys - 1, y[ys - 1]);
    VBound(y, 0, ys - 1);
    MulAtLeast(P(ys - 1), y[ys - 1], 0x800_0000);
    PAdd(ys, j);
    MulAtLeast(P(j), 2 * V(y, 0, ys, 0), P(ys));
  }

  /** The divisor becomes its complement to `DV^ys`, with zero words on top up to word `ys`. */
  method ComplementDivisor(y: BigInteger, t: BigInteger, ys: nat)
    requires y != t && y.WF() && y.s == 0 && y.t == ys && y.Value() > 0
    modifies y, t
    ensures Complement(y, ys, old(y.Value()))
  {
    ghost var Y := y.Value();
    VBound(y.digits, 0, ys);
    var one := new BigInteger();
    one.FromInt(1);
    one.DLShiftTo(ys, t);
    t.SubTo(y, y);
    VFits(y.digits, 0, y.t, y.s);
    LengthBound(y.digits, y.t, y.s);
    if y.t > ys {
      PMonotone(ys, y.t - 1);
    }
    while y.t < ys
      invariant y.t <= ys && y.s == 0 && IsDigits(y.digits, 0, y.t) && V(y.digits, 0, y.t, 0) == P(ys) - Y
    {
      ghost var d := y.digits;
      y.digits := Put(y.digits, y.t, 0);
      VSnoc(d, y.digits, 0, y.t, 0);
      y.t := y.t + 1;
    }
  }

  /** The division identity carried from word `j+1` to word `j`. */
  lemma NextDigit(N: int, Y: int, j: nat, hi: int, rem: int)
    requires N == hi * (P(j + 1) * Y) + rem && 0 <= rem < P(j + 1) * Y && Y > 0
    ensures rem < DV * (Y * P(j)) && Y * P(j) > 0
    ensures N == (rem / (Y * P(j)) + DV * hi) * (P(j) * Y) + rem % (Y * P(j))
    ensures 0 <= rem % (Y * P(j)) < P(j) * Y
  {
    var U := Y * P(j);
    MulAtLeast(P(j), Y, 1);
    assert P(j + 1) * Y == DV * U;
    NextSum(hi, U, rem / U, rem % U, rem);
  }

  lemma NextSum(hi: int, U: int, q: int, m: int, rem: int)
    requires rem == U * q + m
    ensures hi * (DV * U) + rem == (q + DV * hi) * U + m
  {}

  /** The quotient digits below the top one. */
  method DivLoop(r: BigInteger, y: BigInteger, t: BigInteger, ys: nat, j0: nat, y0: int, yt: int,
                 ghost Y: int, ghost top: nat, ghost hi0: int, ghost rem0: int, ghost N: int)
    returns (ghost Q: int, ghost rem: int)
    requires r != y && r != t && y != t && r.s == 0 && Complement(y, ys, Y) && Leading(Y, ys, y0, yt)
    requires Register(r.digits, r.t, ys + j0, top, hi0, rem0) && r.t >= ys + j0
    requires N == hi0 * (P(j0) * Y) + rem0 && 0 <= rem0 < P(j0) * Y
    modifies r, t
    ensures r.s == 0 && r.t >= ys && Register(r.digits, r.t, ys, top, Q, rem)
    ensures N == Q * Y + rem && 0 <= rem < Y
  {
    var j := j0;
    Q, rem := hi0, rem0;
    while j > 0
      invariant 0 <= j <= j0 && r.s == 0 && r.t >= ys + j && Register(r.digits, r.t, ys + j, top, Q, rem)
      invariant N == Q * (P(j) * Y) + rem && 0 <= rem < P(j) * Y
    {
      j := j - 1;
      NextDigit(N, Y, j, Q, rem);
      DivStep(r, y, t, ys, j, y0, yt, Y, top, Q, rem);
      Q, rem := rem / (Y * P(j)) + DV * Q, rem % (Y * P(j));
    }
  }

  /** The register when all quotient digits are found, or, for a dividend that lost its words in
      normalization, when the loop was not entered. */
  ghost predicate Divided(R: seq<int>, rt: nat, ys: nat, top: nat, n0: nat, N: int, Y: int, Q: int, rem: int) {
    && n0 >= ys && rt >= ys && Register(R, rt, ys, top, Q, rem) && N == Q * Y + rem && 0 <= rem < Y
    && (top == n0 || (top == n0 + 1 && N >= P(n0 - ys) * Y))
  }

  ghost predicate Stray(R: seq<int>, rt: nat, ys: nat) {
    rt == 1 && 1 <= ys <= |R| && R[0] == 1 && forall k :: 1 <= k < ys ==> R[k] == 0
  }

  /** From the normalized operands to all quotient digits. */
  method DivideNormalized(r: BigInteger, y: BigInteger, t: BigInteger, ghost nsh: nat)
    returns (ghost top: nat, ghost Q: int, ghost rem: int)
    requires r != y && r != t && y != t && r.WF() && r.s == 0 && (r.t >= y.t || ZeroWords(r, y.t, nsh))
    requires y.Valid() && y.s == 0 && y.t >= 1 && y.digits[y.t - 1] >= 0x800_0000
    modifies r, y, t
    ensures r.s == 0 && y.t == old(y.t)
    ensures old(r.t) >= old(y.t) ==> Divided(r.digits, r.t, old(y.t), top, old(r.t), old(r.Value()), old(y.Value()), Q, rem)
    ensures old(r.t) < old(y.t) ==> Stray(r.digits, r.t, old(y.t))
  {
    var ys := y.t;
    ghost var Y, N, n0 := y.Value(), r.Value(), r.t;
    var y0 := y.digits[ys - 1];
    var yt := y0 * 0x100_0000 + if ys > 1 then Shr(y.digits[ys - 2], 16) else 0;
    LeadingWords(y.digits, ys);
    MulAtLeast(P(ys - 1), y0, 1);
    var i: int := r.t;
    var j: int := i - ys;
    ghost var hi := TopDigit(r, y, t, ys, j);
    ComplementDivisor(y, t, ys);
    top, Q, rem := r.t, hi, 0;
    if j >= 0 {
      RegisterValue(r.digits, r.t, i, r.t, hi, N - hi * (P(j) * Y));
      Q, rem := DivLoop(r, y, t, ys, j, y0, yt, Y, top, hi, N - hi * (P(j) * Y), N);
    }
  }

  /** The remainder: the low `ys` words, shifted back. */
  method TakeRemainder(r: BigInteger, ys: nat, nsh: nat, ts: int)
    requires r.s == 0 && IsDigits(r.digits, 0, ys) && nsh < DB
    modifies r
    ensures r.Valid()
    ensures r.Value() == var v := V(old(r.digits), 0, ys, 0) / Pow2(nsh); if ts < 0 then -v else v
  {
    r.t := ys;
    r.Clamp();
    assert nsh == 0 ==> Pow2(nsh) == 1;
    if nsh > 0 {
      r.RShiftTo(nsh, r);
    }
    if ts < 0 {
      r.NegateTo(r);
    }
  }

  /** The quotient: the words from `ys` up. */
  method TakeQuotient(r: BigInteger, q: BigInteger, ys: nat, negative: bool)
    requires r != q && r.WF() && r.s == 0
    modifies q
    ensures q.WF()
    ensures q.Value() == var v := if ys <= r.t then V(r.digits, ys, r.t, 0) else 0; if negative then -v else v
    ensures negative || r.t <= ys || r.digits[r.t - 1] != 0 ==> q.Valid()
  {
    ShiftedValue(r.digits, ys, r.t, 0);
    r.DRShiftTo(ys, q);
    if negative {
      q.NegateTo(q);
    }
  }

  /** Quotient and remainder of the normalized operands are those of the operands, scaled. */
  lemma Denormalize(a: int, b: int, k: int, Q: int, rem: int)
    requires a >= 0 && b > 0 && k > 0 && k * a == Q * (k * b) + rem && 0 <= rem < k * b
    ensures Q == a / b && rem / k == a % b
  {
    var m := a - Q * b;
    assert rem == k * m;
    if m < 0 {
      MulAtLeast(k, -1, m);
    } else if m >= b {
      MulAtLeast(k, m, b);
    }
    DivUnique(a, b, Q, m);
    DivUnique(rem, k, m, 0);
  }

  lemma EnoughDigits(N: int, Q: int, Y: int, rem: int, p: int, py: int)
    requires N == Q * Y + rem && 0 <= rem < Y <= py && N >= p * py && p > 0
    ensures Q >= p
  {
    if Q < p {
      MulAtLeast(Y, p - 1, Q);
      MulAtLeast(p, py, Y);
    }
  }

  /** The quotient has no superfluous high word. */
  lemma QuotientClamped(R: seq<int>, rt: nat, ys: nat, top: nat, n0: nat, N: int, Y: int, Q: int, rem: int)
    requires Divided(R, rt, ys, top, n0, N, Y, Q, rem) && n0 >= 1 && N >= P(n0 - 1) && Y <= P(ys)
    ensures V(R, ys, rt, 0) == Q
    ensures rt > ys ==> R[rt - 1] != 0
  {
    QuotientWords(R, rt, ys, top, n0, N, Y, Q, rem);
    if rt > ys && R[rt - 1] == 0 {
      if top == n0 {
        PAdd(n0 - 1 - ys, ys);
        EnoughDigits(N, Q, Y, rem, P(n0 - 1 - ys), P(ys));
      } else {
        EnoughDigits(N, Q, Y, rem, P(n0 - ys), Y);
      }
      VSnoc(R, R, ys, rt - 1, 0);
      VBound(R, ys, rt - 1);
      PMonotone(rt - 1 - ys, top - 1 - ys);
    }
  }

  lemma QuotientWords(R: seq<int>, rt: nat, ys: nat, top: nat, n0: nat, N: int, Y: int, Q: int, rem: int)
    requires Divided(R, rt, ys, top, n0, N, Y, Q, rem)
    ensures V(R, ys, rt, 0) == Q
  {
    VSplit(R, ys, rt, top, 0);
    VZeros(R, rt, top, 0);
  }

  /** What the words of the register say in the end. */
  lemma Outcome(R: seq<int>, rt: nat, ys: nat, top: nat, n0: nat, N: int, Y: int, Q: int, rem: int, a: int, b: int, k: int)
    requires Divided(R, rt, ys, top, n0, N, Y, Q, rem) && ys >= 1 && Y <= P(ys)
    requires a >= 0 && b > 0 && k > 0 && N == k * a && Y == k * b
    ensures V(R, 0, ys, 0) / k == a % b && V(R, ys, rt, 0) == a / b
    ensures N >= P(n0 - 1) && rt > ys ==> R[rt - 1] != 0
  {
    Denormalize(a, b, k, Q, rem);
    QuotientWords(R, rt, ys, top, n0, N, Y, Q, rem);
    if N >= P(n0 - 1) {
      QuotientClamped(R, rt, ys, top, n0, N, Y, Q, rem);
    }
  }

  /** The stray one of a dividend without words is shifted out. */
  lemma StrayOutcome(R: seq<int>, rt: nat, ys: nat, nsh: nat, a: int, b: int)
    requires Stray(R, rt, ys) && nsh > 0 && a == 0 && b > 0
    ensures IsDigits(R, 0, ys) && V(R, 0, ys, 0) / Pow2(nsh) == a % b
    ensures ys <= rt ==> V(R, ys, rt, 0) == 0
    ensures a / b == 0
  {
    VZeros(R, 1, ys, 0);
    assert V(R, 0, ys, 0) == 1;
    Pow2Monotone(1, nsh);
    DivUnique(1, Pow2(nsh), 0, 1);
    DivUnique(0, b, 0, 0);
  }

  /** `divRemTo` from the normalization on, `r` given and the dividend not shorter than the divisor. */
  method DivideMagnitudes(pm: BigInteger, pt: BigInteger, q: BigInteger?, r: BigInteger, ts: int, ms: int)
    requires pm.Valid() && pm.s == 0 && 0 < pm.t <= pt.t && pt.WF() && pt.s == 0 && (pt.Valid() || pt.Value() == 0)
    requires q != r && pm.Value() > 0
    modifies r, if q == null then {} else {q}
    ensures r.Valid()
    ensures r.Value() == var v := old(pt.Value()) % old(pm.Value()); if ts < 0 then -v else v
    ensures q != null ==> q.WF() && (old(pt.Valid()) ==> q.Valid())
    ensures q != null ==> q.Value() == var v := old(pt.Value()) / old(pm.Value()); if ts != ms then -v else v
  {
    ghost var a, b := pt.Value(), pm.Value();
    VBound(pt.digits, 0, pt.t);
    var y := new BigInteger();
    var nsh := Normalize(pm, pt, y, r);
    var ys := y.t;
    var t := q;
    if t == null {
      t := new BigInteger();
    }
    DivideWords(r, y, t, nsh, a, b);
    TakeResults(r, q, ys, nsh, ts, ms, a / b, a % b);
  }

  /** The division of the normalized operands, in terms of the operands `a` and `b`. */
  method DivideWords(r: BigInteger, y: BigInteger, t: BigInteger, ghost nsh: nat, ghost a: int, ghost b: int)
    requires r != y && r != t && y != t && r.WF() && r.s == 0 && (r.t >= y.t || ZeroWords(r, y.t, nsh))
    requires y.Valid() && y.s == 0 && y.t >= 1 && y.digits[y.t - 1] >= 0x800_0000
    requires a >= 0 && b > 0 && r.Value() == Pow2(nsh) * a && y.Value() == Pow2(nsh) * b
    modifies r, y, t
    ensures r.WF() && r.s == 0 && IsDigits(r.digits, 0, old(y.t)) && V(r.digits, 0, old(y.t), 0) / Pow2(nsh) == a % b
    ensures a / b == if old(y.t) <= r.t then V(r.digits, old(y.t), r.t, 0) else 0
    ensures old(r.Valid()) && r.t > old(y.t) ==> r.digits[r.t - 1] != 0
  {
    var ys := y.t;
    ghost var n0, N, Y := r.t, r.Value(), y.Value();
    Ranges(r.digits, n0, y.digits, ys, a, b, Pow2(nsh));
    ghost var top, Q, rem := DivideNormalized(r, y, t, nsh);
    if n0 >= ys {
      Outcome(r.digits, r.t, ys, top, n0, N, Y, Q, rem, a, b, Pow2(nsh));
    } else {
      StrayOutcome(r.digits, r.t, ys, nsh, a, b);
    }
  }

  /** Hand out quotient and remainder with their signs. */
  method TakeResults(r: BigInteger, q: BigInteger?, ys: nat, nsh: nat, ts: int, ms: int, ghost quot: int, ghost rem: int)
    requires r != q && r.WF() && r.s == 0 && IsDigits(r.digits, 0, ys) && nsh < DB
    requires V(r.digits, 0, ys, 0) / Pow2(nsh) == rem && quot == if ys <= r.t then V(r.digits, ys, r.t, 0) else 0
    modifies r, if q == null then {} else {q}
    ensures r.Valid() && r.Value() == if ts < 0 then -rem else rem
    ensures q != null ==> q.WF() && q.Value() == if ts != ms then -quot else quot
    ensures q != null ==> old(r.t) <= ys || old(r.digits)[old(r.t) - 1] != 0 ==> q.Valid()
  {
    if q != null {
      TakeQuotient(r, q, ys, ts != ms);
    }
    TakeRemainder(r, ys, nsh, ts);
  }

  lemma Ranges(r: seq<int>, n0: nat, y: seq<int>, ys: nat, a: int, b: int, k: int)
    requires IsDigits(r, 0, n0) && IsDigits(y, 0, ys) && k > 0
    requires V(r, 0, n0, 0) == k * a && V(y, 0, ys, 0) == k * b
    ensures V(y, 0, ys, 0) <= P(ys) && (n0 == 0 ==> a == 0)
    ensures n0 > 0 && r[n0 - 1] != 0 ==> k * a >= P(n0 - 1)
  {
    VBound(y, 0, ys);
    if n0 > 0 && r[n0 - 1] != 0 {
      LengthBound(r, n0, 0);
    }
  }

  // ----- the operation

  function AbsInt(x: int): nat {
    if x < 0 then -x else x
  }

  /** Division truncated toward zero. */
  function Quot(a: int, b: int): int
    requires b != 0
  {
    var v := AbsInt(a) / AbsInt(b);
    if (a < 0) != (b < 0) then -v else v
  }

  /** The remainder that belongs to it, with the sign of the dividend. */
  function Rem(a: int, b: int): int
    requires b != 0
  {
    var v := AbsInt(a) % AbsInt(b);
    if a < 0 then -v else v
  }

  ghost predicate IsTruncated(a: int, b: int, q: int, r: int) {
    && a == q * b + r && AbsInt(r) < AbsInt(b)
    && (r > 0 ==> a > 0) && (r < 0 ==> a < 0)
  }

  /** `Quot` and `Rem` are the only pair with these properties. */
  lemma TruncatedDivision(a: int, b: int, q: int, r: int)
    requires b != 0
    ensures q == Quot(a, b) && r == Rem(a, b) <==> IsTruncated(a, b, q, r)
  {
    DivAtLeast(AbsInt(a), AbsInt(b), 0);
    TruncatedExists(a, b, AbsInt(a) / AbsInt(b), AbsInt(a) % AbsInt(b));
    if IsTruncated(a, b, q, r) {
      TruncatedUnique(a, b, q, r);
    }
  }

  lemma TruncatedExists(a: int, b: int, q: int, r: int)
    requires b != 0 && AbsInt(a) == AbsInt(b) * q + r && 0 <= r < AbsInt(b) && q >= 0
    ensures IsTruncated(a, b, if (a < 0) != (b < 0) then -q else q, if a < 0 then -r else r)
  {
    SignRule(q, b);
    MulAtLeast(AbsInt(b), q, 0);
  }

  lemma TruncatedUnique(a: int, b: int, q: int, r: int)
    requires b != 0 && IsTruncated(a, b, q, r)
    ensures q == Quot(a, b) && r == Rem(a, b)
  {
    SignRule(q, b);
    DivUnique(AbsInt(a), AbsInt(b), if (a < 0) != (b < 0) then -q else q, AbsInt(r));
  }

  /** The dividend has fewer words than the divisor. */
  ghost predicate Shorter(a: int, b: int) {
    exists n: nat :: AbsInt(a) < P(n) <= AbsInt(b)
  }

  lemma ShorterWords(x: seq<int>, n: nat, y: seq<int>, k: nat, a: int, b: int)
    requires IsDigits(x, 0, n) && (n > 0 ==> x[n - 1] != 0) && V(x, 0, n, 0) == AbsInt(a)
    requires IsDigits(y, 0, k) && (k > 0 ==> y[k - 1] != 0) && V(y, 0, k, 0) == AbsInt(b)
    ensures n < k <==> Shorter(a, b)
  {
    LengthBound(x, n, 0);
    LengthBound(y, k, 0);
    if n < k {
      PMonotone(n, k - 1);
      assert AbsInt(a) < P(n) <= AbsInt(b);
    } else {
      forall m: nat | AbsInt(a) < P(m) <= AbsInt(b)
        ensures false
      {
        if m < n {
          PMonotone(m, n - 1);
        } else {
          PMonotone(k, m);
        }
      }
    }
  }

  lemma FewerWords(x: seq<int>, n: nat, y: seq<int>, k: nat, a: int, b: int)
    requires IsDigits(x, 0, n) && V(x, 0, n, 0) == AbsInt(a)
    requires IsDigits(y, 0, k) && (k > 0 ==> y[k - 1] != 0) && V(y, 0, k, 0) == AbsInt(b) && n < k
    ensures Shorter(a, b)
  {
    VBound(x, 0, n);
    LengthBound(y, k, 0);
    PMonotone(n, k - 1);
    assert AbsInt(a) < P(n) <= AbsInt(b);
  }

  lemma ShorterResult(a: int, b: int)
    requires b != 0 && Shorter(a, b)
    ensures Quot(a, b) == 0 && Rem(a, b) == a
  {
    DivUnique(AbsInt(a), AbsInt(b), 0, AbsInt(a));
  }

  /** Whether `divRemTo` hands back the wrong remainder: a shorter dividend that is also to receive
      the quotient has been cleared before it is copied to `r`. */
  ghost predicate Clobbered(self: BigInteger, m: BigInteger, q: BigInteger?)
    requires self.WF() && m.WF()
    reads self, m
  {
    q == self && Shorter(self.Value(), m.Value())
  }

  /** A dividend with fewer words: the quotient is cleared first, then the dividend copied to the remainder. */
  method DivideShort(self: BigInteger, q: BigInteger?, r: BigInteger?)
    requires self.WF() && (q != r || q == null)
    modifies if q == null then {} else {q}, if r == null then {} else {r}
    ensures q != null ==> q.Valid() && q.Value() == 0
    ensures r != null ==> r.WF() && (old(self.Valid()) ==> r.Valid())
    ensures r != null ==> r.Value() == if q == self then 0 else old(self.Value())
  {
    if q != null {
      q.FromInt(0);
    }
    if r != null {
      self.CopyTo(r);
    }
  }

  /** A dividend with as many words: the division proper, with a remainder of its own if none is wanted. */
  method DivideLong(pm: BigInteger, pt: BigInteger, q: BigInteger?, r0: BigInteger?, ts: int, ms: int, ghost a: int, ghost b: int)
    requires pm.Valid() && pm.s == 0 && 0 < pm.t <= pt.t && pt.WF() && pt.s == 0 && (pt.Valid() || pt.Value() == 0)
    requires (q != r0 || q == null) && b != 0 && pm.Value() == AbsInt(b) && pt.Value() == AbsInt(a)
    requires (ts < 0 <==> a < 0) && (ts != ms <==> (a < 0) != (b < 0))
    modifies if q == null then {} else {q}, if r0 == null then {} else {r0}
    ensures q != null ==> q.WF() && (old(pt.Valid()) ==> q.Valid()) && q.Value() == Quot(a, b)
    ensures r0 != null ==> r0.Valid() && r0.Value() == Rem(a, b)
  {
    var r := r0;
    if r == null {
      r := new BigInteger();
    }
    DivideMagnitudes(pm, pt, q, r, ts, ms);
  }

  /** Divide this by `m`; a zero divisor changes nothing. A zero dividend need not be clamped. */
  method DivRemTo(self: BigInteger, m: BigInteger, q: BigInteger?, r: BigInteger?)
    requires self.WF() && (self.Valid() || (self.s == 0 && self.Value() == 0)) && m.Valid()
    requires self != m && (q != r || q == null)
    modifies if q == null then {} else {q}, if r == null then {} else {r}
    ensures old(m.Value()) == 0 ==> (q != null ==> unchanged(q)) && (r != null ==> unchanged(r))
    ensures old(m.Value()) != 0 && q != null ==>
              && q.WF() && (old(self.Valid()) ==> q.Valid())
              && q.Value() == Quot(old(self.Value()), old(m.Value()))
    ensures old(m.Value()) != 0 && r != null ==>
              && r.WF() && (old(self.Valid() || (m.s == 0 && self.t >= m.t)) ==> r.Valid())
              && r.Value() == if old(Clobbered(self, m, q)) then 0 else Rem(old(self.Value()), old(m.Value()))
  {
    ghost var a, b := self.Value(), m.Value();
    var pm := MagnitudeOf(m);
    var pt := MagnitudeOf(self);
    if pm.t <= 0 {
      return;
    }
    if pt.t < pm.t {
      FewerWords(pt.digits, pt.t, pm.digits, pm.t, a, b);
      ShorterResult(a, b);
      DivideShort(self, q, r);
      return;
    }
    if pt.Valid() {
      ShorterWords(pt.digits, pt.t, pm.digits, pm.t, a, b);
    } else {
      DivUnique(0, AbsInt(b), 0, 0);
    }
    DivideLong(pm, pt, q, r, self.s, m.s, a, b);
  }

  /** Dividing 1 by `DV` with the quotient put in the place of the dividend gives the remainder 0 instead of 1. */
  method LosesRemainder() returns (r: BigInteger)
    ensures r.Valid() && r.Value() == 0 != Rem(1, DV)
  {
    var x := new BigInteger();
    x.FromInt(1);
    var m := new BigInteger();
    m.digits, m.t := [0, 1], 2;
    assert V(m.digits, 2, 2, 0) == 0 && V(m.digits, 1, 2, 0) == 1;
    r := new BigInteger();
    assert Clobbered(x, m, x) by { assert P(1) == DV * P(0) && AbsInt(1) < P(1) <= AbsInt(DV); }
    DivRemTo(x, m, x, r);
  }

  /** `x.abs()`, with what its words say about `x`. */
  method MagnitudeOf(x: BigInteger) returns (p: BigInteger)
    requires x.WF()
    ensures p.WF() && (p == x || fresh(p)) && p.s == 0 && p.Value() == AbsInt(x.Value()) && (x.Valid() ==> p.Valid())
    ensures x.s < 0 <==> x.Value() < 0
    ensures p.Valid() ==> (p.t == 0 <==> x.Value() == 0)
    ensures x.s == 0 ==> p == x
  {
    VFits(x.digits, 0, x.t, x.s);
    p := x.Abs();
    if p.Valid() {
      LengthBound(p.digits, p.t, 0);
    }
  }
}
