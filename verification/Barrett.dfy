/** Barrett reduction (HAC 14.42). */
module BarrettReduction {
  import opened Digits
  import opened BigIntegers
  import opened Multiplication
  import opened Division
  import opened Modular

  // ----- products without their low words

  /** One row of `multiplyUpperTo`: the words of `b` from `k` up, times `y`, against the full row. */
  lemma UpperRow(b: seq<int>, k: nat, n: nat, y: int)
    requires k <= n && IsDigits(b, 0, n) && 0 <= y < DV
    ensures 0 <= y * V(b, 0, n, 0) - P(k) * (y * V(b, k, n, 0)) <= DV * P(k)
  {
    var low, high, p := V(b, 0, k, 0), V(b, k, n, 0), P(k);
    VSplit(b, 0, k, n, 0);
    VTop(b, 0, k, high);
    VBound(b, 0, k);
    RowRest(y, low, high, p);
  }

  lemma RowRest(y: int, low: int, high: int, p: int)
    requires 0 <= y < DV && 0 <= low < p
    ensures 0 <= y * (low + p * high) - p * (y * high) <= DV * p
  {
    assert y * (low + p * high) == y * low + p * (y * high);
    MulBound(y, low, DV, p);
  }

  /** Weighted by the row's place. */
  lemma UpperRowWeight(y: int, B: int, high: int, i: nat, n: nat)
    requires i <= n && 0 <= y * B - P(n - i) * (y * high) <= DV * P(n - i)
    ensures 0 <= P(i) * (y * B) - P(n) * (y * high) <= DV * P(n)
  {
    PAdd(i, n - i);
    Weigh(y * B, y * high, P(i), P(n - i));
  }

  lemma Weigh(a: int, h: int, p: int, q: int)
    requires p > 0 && 0 <= a - q * h <= DV * q
    ensures 0 <= p * a - (p * q) * h <= DV * (p * q)
  {
    Assoc(p, q, h);
    MulAtLeast(p, a, q * h);
    MulAtLeast(p, q * h + DV * q, a);
    Expand(p, q * h, DV * q);
  }

  /** A row that lies entirely below word `n`. */
  lemma SkippedRow(b: seq<int>, t: nat, y: int, i: nat, n: nat)
    requires i + t < n && IsDigits(b, 0, t) && 0 <= y < DV
    ensures 0 <= P(i) * (y * V(b, 0, t, 0)) <= DV * P(n)
  {
    VBound(b, 0, t);
    MulBound(y, V(b, 0, t, 0), DV, P(t));
    PAdd(i, t);
    PMonotone(i + t, n);
    Weigh(y * V(b, 0, t, 0), 0, P(i), P(t));
  }

  /** How far the upper product `U` of `i` rows may lag behind their full sum `S`. */
  ghost predicate Lags(S: int, U: int, i: nat, n: nat) {
    0 <= S - P(n) * U <= i * (DV * P(n))
  }

  lemma {:induction false} SkippedRows(b: seq<int>, t: nat, a: seq<int>, i: nat, n: nat)
    requires i + t <= n && IsDigits(b, 0, t) && IsDigits(a, 0, i)
    ensures Lags(V(b, 0, t, 0) * V(a, 0, i, 0), 0, i, n)
  {
    if i > 0 {
      SkippedRows(b, t, a, i - 1, n);
      SkippedRow(b, t, a[i - 1], i - 1, n);
      NextRow(a, i - 1, V(b, 0, t, 0), V(b, 0, t, 0) * V(a, 0, i - 1, 0) + P(i - 1) * (a[i - 1] * V(b, 0, t, 0)));
    }
  }

  lemma LagStep(S: int, U: int, i: nat, n: nat, row: int, high: int)
    requires Lags(S, U, i, n) && 0 <= row - P(n) * high <= DV * P(n)
    ensures Lags(S + row, U + high, i + 1, n)
  {
    Expand(P(n), U, high);
  }

  /** Row `i`: the words of this number that reach word `n`, times one word of the other. */
  method UpperRowTo(self: BigInteger, y: int, r: BigInteger, i: nat, n: nat, ghost S: int)
    requires self.WF() && r != self && i <= n <= self.t + i && 0 <= y < DV
    requires IsDigits(r.digits, 0, self.t + i - n) && Lags(S, V(r.digits, 0, self.t + i - n, 0), i, n)
    modifies r`digits
    ensures IsDigits(r.digits, 0, self.t + i - n + 1)
    ensures Lags(S + P(i) * (y * V(self.digits, 0, self.t, 0)), V(r.digits, 0, self.t + i - n + 1, 0), i + 1, n)
  {
    var e := self.t + i - n;
    ghost var w, B, high := r.digits, V(self.digits, 0, self.t, 0), V(self.digits, n - i, self.t, 0);
    var c := self.Am(n - i, y, r, 0, 0, e);
    ghost var mid := r.digits;
    r.digits := Put(r.digits, e, c);
    VSnoc(mid, r.digits, 0, e, 0);
    UpperRow(self.digits, n - i, self.t, y);
    UpperRowWeight(y, B, high, i, n);
    LagStep(S, V(w, 0, e, 0), i, n, P(i) * (y * B), y * high);
  }

  /** The rows of `multiplyUpperTo`. */
  method UpperRows(self: BigInteger, a: BigInteger, n: nat, r: BigInteger)
    requires self.WF() && a.WF() && r != self && r != a && a.t <= n + 1 && n <= self.t + a.t
    requires |r.digits| >= self.t + a.t - n && forall k :: 0 <= k < self.t + a.t - n ==> r.digits[k] == 0
    modifies r`digits
    ensures IsDigits(r.digits, 0, self.t + a.t - n)
    ensures Lags(V(self.digits, 0, self.t, 0) * V(a.digits, 0, a.t, 0), V(r.digits, 0, self.t + a.t - n, 0), a.t, n)
  {
    ghost var B := V(self.digits, 0, self.t, 0);
    var i := Max(n - self.t, 0);
    VZeros(r.digits, 0, self.t + i - n, 0);
    if i > 0 {
      SkippedRows(self.digits, self.t, a.digits, i, n);
    }
    while i < a.t
      invariant 0 <= i <= a.t && n <= self.t + i
      invariant IsDigits(r.digits, 0, self.t + i - n)
      invariant Lags(B * V(a.digits, 0, i, 0), V(r.digits, 0, self.t + i - n, 0), i, n)
    {
      UpperRowTo(self, a.digits[i], r, i, n, B * V(a.digits, 0, i, 0));
      NextRow(a.digits, i, B, B * V(a.digits, 0, i, 0) + P(i) * (a.digits[i] * B));
      i := i + 1;
    }
  }

  /** The product without its lower `n` words, too small by at most one for every word of `a`. */
  method MultiplyUpperTo(self: BigInteger, a: BigInteger, n: nat, r: BigInteger)
    requires self.WF() && self.s == 0 && a.WF() && a.s == 0 && r != self && r != a
    requires n > 0 && a.t <= n <= self.t + a.t + 1
    modifies r
    ensures r.Valid() && r.s == 0
    ensures 0 <= self.Value() * a.Value() - P(n) * r.Value() < (a.t + 1) * P(n)
  {
    r.t := self.t + a.t - (n - 1);
    r.s := 0;
    r.FillZero(r.t);
    UpperRows(self, a, n - 1, r);
    ghost var U := V(r.digits, 0, r.t, 0);
    r.Clamp();
    r.DRShiftTo(1, r);
    UpperResult(self.Value() * a.Value(), U, a.t, n - 1);
  }

  lemma UpperResult(S: int, U: int, i: nat, n: nat)
    requires Lags(S, U, i, n)
    ensures P(1) == DV && 0 <= S - P(n + 1) * (U / DV) < (i + 1) * P(n + 1)
  {
    assert P(1) == DV * P(0);
    UpperRest(S, U, U / DV, U % DV, i, P(n));
  }

  lemma UpperRest(S: int, U: int, q: int, m: int, i: nat, p: int)
    requires p > 0 && U == DV * q + m && 0 <= m < DV && 0 <= S - p * U <= i * (DV * p)
    ensures 0 <= S - (DV * p) * q < (i + 1) * (DV * p)
  {
    Expand(p, DV * q, m);
    MulAtLeast(p, m, 0);
    MulAtLeast(p, DV - 1, m);
    assert p * (DV * q) == (DV * p) * q;
  }

  // ----- products without their high words

  /** A full row of `multiplyLowerTo` under the zero words above it. */
  method LowerFullRow(self: BigInteger, a: BigInteger, r: BigInteger, i: nat, n: nat)
    requires self.WF() && a.WF() && r != self && r != a && i < a.t && i + self.t < n && IsDigits(r.digits, 0, n)
    requires forall k :: i + self.t <= k < n ==> r.digits[k] == 0
    requires V(r.digits, 0, n, 0) == V(self.digits, 0, self.t, 0) * V(a.digits, 0, i, 0)
    modifies r`digits
    ensures IsDigits(r.digits, 0, n)
    ensures forall k :: i + 1 + self.t <= k < n ==> r.digits[k] == 0
    ensures V(r.digits, 0, n, 0) == V(self.digits, 0, self.t, 0) * V(a.digits, 0, i + 1, 0)
  {
    var e, y := i + self.t, a.digits[i];
    ghost var w, B := r.digits, V(self.digits, 0, self.t, 0);
    var c := self.Am(0, y, r, i, 0, self.t);
    ghost var mid := r.digits;
    r.digits := Put(r.digits, e, c);
    VFrame(mid, r.digits, i, e, c);
    RowValue(w, r.digits, i, e, y, B);
    ZeroTail(w, e, n);
    ZeroTail(r.digits, e + 1, n);
    NextRow(a.digits, i, B, V(r.digits, 0, e + 1, 0));
  }

  lemma ZeroTail(w: seq<int>, e: nat, n: nat)
    requires e <= n <= |w| && forall k :: e <= k < n ==> w[k] == 0
    ensures V(w, 0, n, 0) == V(w, 0, e, 0)
  {
    VSplit(w, 0, e, n, 0);
    VZeros(w, e, n, 0);
  }

  /** A row cut off at word `n`, modulo `DV^n`. */
  lemma CutRow(b: seq<int>, t: nat, w: seq<int>, w': seq<int>, i: nat, n: nat, y: int, c: int)
    requires i <= n <= |w| && n <= |w'| && n - i <= t <= |b|
    requires forall k :: 0 <= k < i ==> w'[k] == w[k]
    requires V(w', i, n, c) == V(w, i, n, 0) + y * V(b, 0, n - i, 0)
    ensures Cong(V(w', 0, n, 0), V(w, 0, n, 0) + P(i) * (y * V(b, 0, t, 0)), P(n))
  {
    var low, high := V(b, 0, n - i, 0), V(b, n - i, t, 0);
    RowWeight(w, w', i, n, 0, c, y * low);
    VTop(w', 0, n, c);
    VSplit(b, 0, n - i, t, 0);
    VTop(b, 0, n - i, high);
    PAdd(i, n - i);
    CutTerms(P(i), P(n - i), y, low, high, V(w, 0, n, 0), V(w', 0, n, 0), c);
  }

  lemma CutTerms(p: int, q: int, y: int, low: int, high: int, v: int, v': int, c: int)
    requires p * q > 0 && v' + (p * q) * c == v + p * (y * low)
    ensures Cong(v', v + p * (y * (low + q * high)), p * q)
  {
    assert y * (low + q * high) == y * low + q * (y * high);
    Expand(p, y * low, q * (y * high));
    Assoc(p, q, y * high);
    Expand(p * q, -c, -(y * high));
    CongIntro(v', v + p * (y * (low + q * high)), p * q, -c - y * high);
  }

  /** The rows of `multiplyLowerTo`; those from `j` on are cut off at word `n`. */
  method LowerRows(self: BigInteger, a: BigInteger, n: nat, r: BigInteger)
    requires self.WF() && a.WF() && r != self && r != a && a.t <= n && n <= self.t + a.t
    requires |r.digits| >= n && forall k :: 0 <= k < n ==> r.digits[k] == 0
    modifies r`digits
    ensures IsDigits(r.digits, 0, n)
    ensures Cong(V(r.digits, 0, n, 0), V(self.digits, 0, self.t, 0) * V(a.digits, 0, a.t, 0), P(n))
  {
    ghost var B := V(self.digits, 0, self.t, 0);
    VZeros(r.digits, 0, n, 0);
    var i := 0;
    while i + self.t < n
      invariant 0 <= i <= a.t && (i == 0 || i + self.t <= n) && IsDigits(r.digits, 0, n)
      invariant forall k :: i + self.t <= k < n ==> r.digits[k] == 0
      invariant V(r.digits, 0, n, 0) == B * V(a.digits, 0, i, 0)
    {
      LowerFullRow(self, a, r, i, n);
      i := i + 1;
    }
    CongRefl(V(r.digits, 0, n, 0), P(n));
    while i < a.t
      invariant 0 <= i <= a.t && n <= i + self.t && IsDigits(r.digits, 0, n)
      invariant Cong(V(r.digits, 0, n, 0), B * V(a.digits, 0, i, 0), P(n))
    {
      ghost var w, y := r.digits, a.digits[i];
      var c := self.Am(0, a.digits[i], r, i, 0, n - i);
      CutRow(self.digits, self.t, w, r.digits, i, n, y, c);
      NextCut(a.digits, i, B, V(w, 0, n, 0), V(r.digits, 0, n, 0), P(n));
      i := i + 1;
    }
  }

  lemma NextCut(a: seq<int>, i: nat, B: int, v: int, v': int, m: int)
    requires i < |a| && m > 0 && Cong(v, B * V(a, 0, i, 0), m) && Cong(v', v + P(i) * (a[i] * B), m)
    ensures Cong(v', B * V(a, 0, i + 1, 0), m)
  {
    NextRow(a, i, B, B * V(a, 0, i, 0) + P(i) * (a[i] * B));
    CongRefl(P(i) * (a[i] * B), m);
    CongAdd(v, B * V(a, 0, i, 0), P(i) * (a[i] * B), P(i) * (a[i] * B), m);
    CongTrans(v', v + P(i) * (a[i] * B), B * V(a, 0, i + 1, 0), m);
  }

  /** The lower `n` words of the product. */
  method MultiplyLowerTo(self: BigInteger, a: BigInteger, n: nat, r: BigInteger)
    requires self.WF() && self.s == 0 && a.WF() && a.s == 0 && r != self && r != a && a.t <= n
    modifies r
    ensures r.Valid() && r.s == 0 && r.Value() == self.Value() * a.Value() % P(n)
  {
    var i := if self.t + a.t < n then self.t + a.t else n;
    r.s, r.t := 0, i;
    r.FillZero(i);
    LowerRows(self, a, i, r);
    VBound(r.digits, 0, i);
    CongSym(V(r.digits, 0, i, 0), self.Value() * a.Value(), P(i));
    CongUnique(self.Value() * a.Value(), r.Value(), P(i));
    if i < n {
      WholeProduct(self.digits, self.t, a.digits, a.t, n);
    }
    r.Clamp();
  }

  lemma WholeProduct(x: seq<int>, t: nat, y: seq<int>, u: nat, n: nat)
    requires IsDigits(x, 0, t) && IsDigits(y, 0, u) && t + u < n
    ensures var p := V(x, 0, t, 0) * V(y, 0, u, 0); p % P(t + u) == p % P(n)
  {
    var a, b := V(x, 0, t, 0), V(y, 0, u, 0);
    VBound(x, 0, t);
    VBound(y, 0, u);
    MulBound(a, b, P(t), P(u));
    PAdd(t, u);
    PMonotone(t + u, n);
    assert a * b < P(t) * P(u) by {
      MulAtLeast(a, P(u), b);
      MulAtLeast(P(u), P(t) - 1, a);
    }
    DivUnique(a * b, P(t + u), 0, a * b);
    DivUnique(a * b, P(n), 0, a * b);
  }

  // ----- reduction

  /** The estimated quotient `q3` is never too large, and short by less than `k + 3`. Here `D` is
      `DV^(2t)`, `p` is `DV^(t-1)` and `E` is `DV^(t+1)`. */
  lemma BarrettBound(x: int, m: int, mu: int, r2: int, q3: int, k: nat, D: int, p: int, E: int)
    requires 0 < p <= m && 0 < E && D == E * p && 0 <= x < D && m <= D
    requires mu == D / m && r2 == x / p && 0 <= mu * r2 - E * q3 < (k + 1) * E
    ensures 0 <= x - q3 * m < (k + 3) * m
  {
    QuotientBounds(D, m);
    QuotientBounds(x, p);
    MulAtLeast(p, m, 1);
    Regroup(mu, r2, m, p);
    UpperSide(x, m, mu * r2, q3, D, p, E, mu * m, r2 * p);
    LowerSide(x, m, mu * r2, q3 + k + 1, D, p, E, mu * m, r2 * p);
    Expand(m, q3, k + 1);
  }

  lemma QuotientBounds(x: int, m: int)
    requires m > 0 && x >= 0
    ensures 0 <= x / m * m && x - m < x / m * m <= x
  {
    DivAtLeast(x, m, 0);
    MulAtLeast(m, x / m, 0);
  }

  lemma UpperSide(x: int, m: int, T: int, q: int, D: int, p: int, E: int, a: int, b: int)
    requires 0 < p && 0 < m && 0 < m * p && 0 < D == E * p && T * (m * p) == a * b && 0 <= a <= D && 0 <= b <= x && E * q <= T
    ensures q * m <= x
  {
    Scale(E, q, m, p);
    NotTooLarge(x, T, E * q, m * p, q * m, D, a, b);
  }

  lemma LowerSide(x: int, m: int, T: int, q: int, D: int, p: int, E: int, a: int, b: int)
    requires 0 < p <= m <= D == E * p && 0 < m * p && T * (m * p) == a * b && D - m < a && x - p < b && 0 <= a && 0 <= b
    requires 0 <= x < D && T < E * q
    ensures x - q * m < 2 * m
  {
    Scale(E, q, m, p);
    NotTooSmall(x, m, p, T, E * q, m * p, q * m, D, a, b);
  }

  lemma Regroup(mu: int, r2: int, m: int, p: int)
    ensures (mu * r2) * (m * p) == (mu * m) * (r2 * p)
  {}

  /** `T` is the full product, `e` the estimate's share of it and `z` the multiple it stands for. */
  lemma NotTooLarge(x: int, T: int, e: int, w: int, z: int, D: int, a: int, b: int)
    requires 0 < D && 0 < w && T * w == a * b && e * w == D * z && 0 <= a <= D && 0 <= b <= x && e <= T
    ensures z <= x
  {
    MulAtLeast(w, T, e);
    MulAtLeast(b, D, a);
    MulAtLeast(D, x, b);
    if z > x {
      MulAtLeast(D, z, x + 1);
    }
  }

  lemma NotTooSmall(x: int, m: int, p: int, T: int, e: int, w: int, z: int, D: int, a: int, b: int)
    requires 0 < p <= m <= D && 0 < w && T * w == a * b && e * w == D * z && D - m < a && x - p < b && 0 <= a && 0 <= b
    requires 0 <= x < D && T < e
    ensures x - z < 2 * m
  {
    MulAtLeast(w, e, T + 1);
    ProductBelow(a, b, D - m, x - p);
    ScaledGap(x, z, m, p, D);
  }

  lemma Scale(E: int, q: int, m: int, p: int)
    ensures (E * q) * (m * p) == (E * p) * (q * m)
  {}

  lemma ScaledGap(x: int, z: int, m: int, p: int, D: int)
    requires 0 < p <= m && 0 < D && 0 <= x < D && D * z > (D - m) * (x - p)
    ensures x - z < 2 * m
  {
    assert (D - m) * (x - p) == D * x - D * p - m * x + m * p;
    MulAtLeast(D, m, p);
    MulAtLeast(m, D, x);
    MulAtLeast(m, p, 0);
    Expand(D, x, -z);
    if x - z >= 2 * m {
      MulAtLeast(D, x - z, 2 * m);
    }
  }

  lemma ProductBelow(a: int, b: int, c: int, d: int)
    requires 0 <= a && 0 <= b && c <= a && d <= b && 0 <= c
    ensures c * d <= a * b
  {
    MulAtLeast(c, b, d);
    MulAtLeast(b, a, c);
  }

  /** `x` and the multiple `z` of the modulus are known modulo `E` only, and their difference is
      smaller: at most one `E` has to be added to `x`. */
  lemma DifferenceModulo(x: int, z: int, E: int)
    requires E > 0 && 0 <= x - z < E
    ensures var a, b := x % E, z % E; x - z == if a < b then a + E - b else a - b
  {
    var b, d, k := z % E, x - z, z / E;
    if b + d < E {
      DivUnique(x, E, k, b + d);
    } else {
      Expand(E, k, 1);
      DivUnique(x, E, k + 1, b + d - E);
    }
  }

  /** Zero words on top until there is a word `w`. */
  method PadTo(self: BigInteger, w: nat)
    requires self.WF() && self.s == 0
    modifies self
    ensures self.WF() && self.s == 0 && self.t == Max(old(self.t), w + 1) && self.Value() == old(self.Value())
  {
    while self.t <= w
      invariant self.WF() && self.s == 0 && self.t <= Max(old(self.t), w + 1) && self.Value() == old(self.Value())
      invariant self.t >= old(self.t)
    {
      ghost var d := self.digits;
      self.digits := Put(self.digits, self.t, 0);
      VSnoc(d, self.digits, 0, self.t, 0);
      self.t := self.t + 1;
    }
  }

  lemma AddAt(d: seq<int>, e: seq<int>, w: nat, t: nat, n: int)
    requires w < t <= |d| && e == d[w := d[w] + n]
    ensures V(e, 0, t, 0) == V(d, 0, t, 0) + P(w) * n
  {
    var x := V(d, w, t, 0);
    VFrame(d, e, w + 1, t, 0);
    assert V(e, w, t, 0) == x + n;
    VSplit(d, 0, w, t, 0);
    VSplit(e, 0, w, t, 0);
    VFrame(d, e, 0, w, x + n);
    VTop(d, 0, w, x);
    VTop(d, 0, w, x + n);
    Expand(P(w), x, n);
  }

  /** Add `n` at word `w`. */
  method DAddOffset(self: BigInteger, n: int, w: nat)
    requires self.WF() && self.s == 0 && 0 <= n < DV
    modifies self
    ensures self.WF() && self.s == 0 && self.Value() == old(self.Value()) + P(w) * n
    ensures n > 0 && old(self.Valid()) ==> self.Valid()
  {
    PadTo(self, w);
    ghost var d := self.digits;
    self.digits := self.digits[w := self.digits[w] + n];
    AddAt(d, self.digits, w, self.t, n);
    CarryUp(self, w);
    if n > 0 && old(self.Valid()) {
      StillClamped(self.digits, self.t, old(self.digits), old(self.t), w, n);
    }
  }

  /** Carry out of word `w0` as far as it goes, into a new word if need be. */
  method CarryUp(self: BigInteger, w0: nat)
    requires w0 < self.t <= |self.digits| && self.s == 0 && 0 <= self.digits[w0] < 2 * DV
    requires forall k :: 0 <= k < self.t && k != w0 ==> 0 <= self.digits[k] < DV
    modifies self
    ensures self.WF() && self.s == 0 && self.Value() == V(old(self.digits), 0, old(self.t), 0)
    ensures self.t == old(self.t) || (self.t == old(self.t) + 1 && self.digits[self.t - 1] != 0)
  {
    var w := w0;
    ghost var t0 := self.t;
    while self.digits[w] >= DV
      invariant w < self.t <= |self.digits| && self.s == 0 && 0 <= self.digits[w] < 2 * DV
      invariant forall k :: 0 <= k < self.t && k != w ==> 0 <= self.digits[k] < DV
      invariant V(self.digits, 0, self.t, 0) == V(old(self.digits), 0, old(self.t), 0)
      invariant self.t == t0 || (self.t == t0 + 1 && w == t0 && self.digits[w] == 1)
      decreases t0 + 1 - w
    {
      CarryOne(self, w);
      w := w + 1;
    }
  }

  method CarryOne(self: BigInteger, w: nat)
    requires w < self.t <= |self.digits| && DV <= self.digits[w] < 2 * DV
    requires forall k :: 0 <= k < self.t && k != w ==> 0 <= self.digits[k] < DV
    modifies self`digits, self`t
    ensures w + 1 < self.t <= |self.digits| && self.t == Max(old(self.t), w + 2)
    ensures forall k :: 0 <= k < self.t && k != w + 1 ==> 0 <= self.digits[k] < DV
    ensures 1 <= self.digits[w + 1] <= DV && (self.t > old(self.t) ==> self.digits[w + 1] == 1)
    ensures V(self.digits, 0, self.t, 0) == V(old(self.digits), 0, old(self.t), 0)
  {
    ghost var a := self.digits;
    self.digits := self.digits[w := self.digits[w] - DV];
    if w + 1 >= self.t {
      VSnoc(a, Put(a, self.t, 0), 0, self.t, 0);
      a := Put(a, self.t, 0);
      self.digits := Put(self.digits, self.t, 0);
      self.t := self.t + 1;
    }
    self.digits := self.digits[w + 1 := self.digits[w + 1] + 1];
    CarryStep(a, self.digits, w, self.t);
  }

  lemma StillClamped(e: seq<int>, u: nat, d: seq<int>, t: nat, w: nat, n: int)
    requires IsDigits(e, 0, u) && IsDigits(d, 0, t) && (t > 0 ==> d[t - 1] != 0) && n > 0
    requires V(e, 0, u, 0) == V(d, 0, t, 0) + P(w) * n
    requires u == Max(t, w + 1) || (u > 0 && e[u - 1] != 0)
    ensures u > 0 ==> e[u - 1] != 0
  {
    if u > 0 && e[u - 1] == 0 {
      VSnoc(e, e, 0, u - 1, 0);
      VBound(e, 0, u - 1);
      VBound(d, 0, t);
      MulAtLeast(P(w), n, 1);
      if t == u {
        LengthBound(d, t, 0);
      }
    }
  }

  /** Subtract the modulus as long as it fits. */
  method SubtractWhole(x: BigInteger, m: BigInteger)
    requires x != m && x.Valid() && x.s == 0 && m.Valid() && m.s == 0 && m.Value() > 0
    modifies x
    ensures x.Valid() && x.s == 0 && x.Value() == old(x.Value()) % m.Value()
  {
    ghost var M, X := m.Value(), x.Value();
    CongRefl(X, M);
    VBound(x.digits, 0, x.t);
    var c := x.CompareTo(m);
    while c >= 0
      invariant x.Valid() && x.s == 0 && x.Value() >= 0 && Cong(X, x.Value(), M)
      invariant Sign(c) == Sign(x.Value() - M)
      decreases x.Value()
    {
      ghost var v := x.Value();
      x.SubTo(m, x);
      VFits(x.digits, 0, x.t, x.s);
      CongIntro(v, v - M, M, 1);
      CongTrans(X, v, v - M, M);
      c := x.CompareTo(m);
    }
    CongUnique(X, x.Value(), M);
  }

  /** What the constructor `Barrett(m)` computes. */
  ghost predicate BarrettReady(m: BigInteger, mu: BigInteger)
    reads m, mu
  {
    && m.Valid() && m.s == 0 && m.t > 0 && m.Value() > 0
    && mu.Valid() && mu.s == 0 && mu.Value() == P(2 * m.t) / m.Value()
  }

  /** The estimated quotient, from the high words of `X` in `r2`. */
  method EstimateQuotient(m: BigInteger, mu: BigInteger, r2: BigInteger, q3: BigInteger, ghost X: int)
    requires BarrettReady(m, mu) && m.t + 4 <= DV && 0 <= X < P(2 * m.t)
    requires r2.WF() && r2.s == 0 && r2.t <= m.t + 1 && r2.Value() == X / P(m.t - 1)
    requires q3 != m && q3 != mu && r2 != q3
    modifies q3
    ensures q3.Valid() && q3.s == 0 && q3.t <= m.t + 1
    ensures 0 <= X - m.Value() * q3.Value() < P(m.t + 1)
  {
    var t := m.t;
    LengthBound(m.digits, t, 0);
    MuWords(mu.digits, mu.t, m.Value(), t);
    MultiplyUpperTo(mu, r2, t + 1, q3);
    EstimateBounds(X, m.Value(), mu.Value(), r2.Value(), q3.Value(), r2.t, t);
    QuotientLength(q3.digits, q3.t, X, m.Value(), t);
  }

  lemma MuWords(mu: seq<int>, k: nat, m: int, t: nat)
    requires IsDigits(mu, 0, k) && 0 < m < P(t) && V(mu, 0, k, 0) == P(2 * t) / m
    ensures k >= t + 1
  {
    PAdd(t, t);
    MulAtLeast(P(t), P(t), m);
    DivAtLeast(P(2 * t), m, P(t));
    Bigger(mu, k, t);
  }

  lemma EstimateBounds(x: int, m: int, mu: int, r2: int, q3: int, k: nat, t: nat)
    requires t > 0 && P(t - 1) <= m < P(t) && 0 <= x < P(2 * t) && k <= t + 1 && t + 4 <= DV
    requires mu == P(2 * t) / m && r2 == x / P(t - 1) && 0 <= mu * r2 - P(t + 1) * q3 < (k + 1) * P(t + 1)
    ensures 0 <= x - m * q3 < P(t + 1)
  {
    PAdd(t + 1, t - 1);
    PMonotone(t, 2 * t);
    BarrettBound(x, m, mu, r2, q3, k, P(2 * t), P(t - 1), P(t + 1));
    MulAtLeast(m, t + 4, k + 3);
    MulAtLeast(m, DV, t + 4);
  }

  lemma QuotientLength(q3: seq<int>, k: nat, x: int, m: int, t: nat)
    requires t > 0 && P(t - 1) <= m && x < P(2 * t) && IsDigits(q3, 0, k) && (k > 0 ==> q3[k - 1] != 0)
    requires m * V(q3, 0, k, 0) <= x
    ensures k <= t + 1
  {
    var q := V(q3, 0, k, 0);
    LengthBound(q3, k, 0);
    if k > t + 1 {
      PMonotone(t + 1, k - 1);
      PAdd(t - 1, t + 1);
      MulAtLeast(P(t + 1), m, P(t - 1));
      MulAtLeast(m, q, P(t + 1));
    }
  }

  /** Dropping the words from `n` on keeps the value modulo `DV^n`. */
  method CutOff(x: BigInteger, n: nat)
    requires x.Valid() && x.s == 0
    modifies x
    ensures x.Valid() && x.s == 0 && x.t <= n && x.Value() == old(x.Value()) % P(n)
  {
    LengthBound(x.digits, x.t, 0);
    if x.t > n {
      VSplit(x.digits, 0, n, x.t, 0);
      VTop(x.digits, 0, n, V(x.digits, n, x.t, 0));
      VBound(x.digits, 0, n);
      DivUnique(x.Value(), P(n), V(x.digits, n, x.t, 0), V(x.digits, 0, n, 0));
      x.t := n;
      x.Clamp();
    } else {
      PMonotone(x.t, n);
      DivUnique(x.Value(), P(n), 0, x.Value());
    }
  }

  /** The difference of two numbers of `n` words, with `DV^n` added first when it would be negative. */
  method SubtractModuloPower(x: BigInteger, r2: BigInteger, n: nat)
    requires x != r2 && x.Valid() && x.s == 0 && r2.Valid() && r2.s == 0 && 0 <= x.Value() < P(n) && 0 <= r2.Value() < P(n)
    modifies x
    ensures x.Valid() && x.s == 0
    ensures x.Value() == var a, b := old(x.Value()), r2.Value(); if a < b then a + P(n) - b else a - b
  {
    ghost var a, b := x.Value(), r2.Value();
    var c := x.CompareTo(r2);
    ghost var added := false;
    while c < 0
      invariant x.Valid() && x.s == 0 && Sign(c) == Sign(x.Value() - b)
      invariant x.Value() == if added then a + P(n) else a
      invariant added ==> a < b && c >= 0
      decreases !added
    {
      DAddOffset(x, 1, n);
      added := true;
      c := x.CompareTo(r2);
    }
    x.SubTo(r2, x);
    VFits(x.digits, 0, x.t, x.s);
  }

  /** `x = x mod m`. */
  method BarrettReduce(x: BigInteger, m: BigInteger, mu: BigInteger, r2: BigInteger, q3: BigInteger)
    requires BarrettReady(m, mu) && x.Valid() && x.s == 0 && x.t <= 2 * m.t && m.t + 4 <= DV
    requires x != m && x != mu && r2 != x && r2 != m && r2 != mu && q3 != x && q3 != m && q3 != mu && r2 != q3
    modifies x, r2, q3
    ensures x.Valid() && x.s == 0 && x.Value() == old(x.Value()) % m.Value()
  {
    ghost var X, M := x.Value(), m.Value();
    LengthBound(x.digits, x.t, 0);
    PMonotone(x.t, 2 * m.t);
    x.DRShiftTo(m.t - 1, r2);
    CutOff(x, m.t + 1);
    EstimateQuotient(m, mu, r2, q3, X);
    MultiplyLowerTo(m, q3, m.t + 1, r2);
    DifferenceModulo(X, M * q3.Value(), P(m.t + 1));
    SubtractModuloPower(x, r2, m.t + 1);
    CongIntro(X, X - M * q3.Value(), M, q3.Value());
    SubtractWhole(x, m);
    SameResidue(X, X - M * q3.Value(), M);
  }

  lemma SameResidue(a: int, b: int, m: int)
    requires m > 0 && Cong(a, b, m)
    ensures a % m == b % m
  {
    CongMod(b, m);
    CongTrans(a, b, b % m, m);
    CongUnique(a, b % m, m);
  }

  /** `Barrett(m)`. */
  method NewBarrett(m: BigInteger) returns (mu: BigInteger, r2: BigInteger, q3: BigInteger)
    requires m.Valid() && m.s == 0 && m.Value() > 0
    ensures fresh(mu) && fresh(r2) && fresh(q3) && mu != r2 && mu != q3 && r2 != q3 && BarrettReady(m, mu)
  {
    LengthBound(m.digits, m.t, 0);
    r2 := new BigInteger();
    q3 := new BigInteger();
    mu := new BigInteger();
    var one := new BigInteger();
    one.FromInt(1);
    one.DLShiftTo(2 * m.t, r2);
    DivRemTo(r2, m, mu, null);
    DivAtLeast(P(2 * m.t), m.Value(), 0);
    VFits(mu.digits, 0, mu.t, mu.s);
  }
}
