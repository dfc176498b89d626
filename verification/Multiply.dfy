/** Multiplication and squaring. */
module Multiplication {
  import opened JsInt
  import opened Digits
  import opened BigIntegers

  /** One row of the schoolbook product: `w` becomes `u` when `y*X` is added at word `i`, the last
      carry landing in word `e`. */
  lemma RowValue(w: seq<int>, u: seq<int>, i: nat, e: nat, y: int, X: int)
    requires i <= e < |u| && e <= |w|
    requires forall k :: 0 <= k < i ==> u[k] == w[k]
    requires V(u, i, e, u[e]) == V(w, i, e, 0) + y * X
    ensures V(u, 0, e + 1, 0) == V(w, 0, e, 0) + P(i) * (y * X)
  {
    VSnoc(u, u, 0, e, 0);
    VSplit(u, 0, i, e, u[e]);
    VFrame(u, w, 0, i, V(u, i, e, u[e]));
    VSplit(w, 0, i, e, 0);
    VTop(w, 0, i, V(w, i, e, 0) + y * X);
    VTop(w, 0, i, V(w, i, e, 0));
    Expand(P(i), V(w, i, e, 0), y * X);
  }

  lemma NextRow(Y: seq<int>, i: nat, X: int, v: int)
    requires i < |Y| && v == X * V(Y, 0, i, 0) + P(i) * (Y[i] * X)
    ensures v == X * V(Y, 0, i + 1, 0)
  {
    VSnoc(Y, Y, 0, i, 0);
    VTop(Y, 0, i, Y[i]);
    Expand(X, V(Y, 0, i, 0), P(i) * Y[i]);
    MulAssoc(P(i), Y[i], X);
  }

  /** The rows of `multiplyTo`, over magnitudes. */
  method MultiplyWords(x: BigInteger, y: BigInteger, r: BigInteger)
    requires x.WF() && y.WF() && r != x && r != y
    modifies r
    ensures r.t == x.t + y.t && IsDigits(r.digits, 0, r.t) && r.s == old(r.s)
    ensures V(r.digits, 0, r.t, 0) == V(x.digits, 0, x.t, 0) * V(y.digits, 0, y.t, 0)
  {
    var n := x.t;
    ghost var X, Y := V(x.digits, 0, n, 0), y.digits;
    r.t := n + y.t;
    r.FillZero(n);
    VZeros(r.digits, 0, n, 0);
    var i := 0;
    while i < y.t
      invariant 0 <= i <= y.t && r.t == n + y.t && r.s == old(r.s)
      invariant IsDigits(r.digits, 0, i + n)
      invariant V(r.digits, 0, i + n, 0) == X * V(Y, 0, i, 0)
    {
      ghost var w, e := r.digits, i + n;
      var c := x.Am(0, y.digits[i], r, i, 0, n);
      ghost var mid := r.digits;
      r.digits := Put(r.digits, i + n, c);
      VFrame(mid, r.digits, i, e, c);
      RowValue(w, r.digits, i, e, Y[i], X);
      NextRow(Y, i, X, V(r.digits, 0, e + 1, 0));
      i := i + 1;
    }
  }

  /** `r = this * a`. */
  method MultiplyTo(self: BigInteger, a: BigInteger, r: BigInteger)
    requires self.WF() && a.WF() && r != self && r != a
    modifies r
    ensures r.Valid() && r.Value() == self.Value() * a.Value()
  {
    var x := self.Abs();
    var y := a.Abs();
    MultiplyWords(x, y, r);
    r.s := 0;
    r.Clamp();
    if self.s != a.s {
      r.NegateTo(r);
    }
    SignRule(self.Value(), a.Value());
  }

  lemma SignRule(x: int, y: int)
    ensures (-x) * y == -(x * y) && x * (-y) == -(x * y) && (-x) * (-y) == x * y
  {}

  // ----- squaring

  /** What is still to be added before row `i`: the square of the words from `i` up. */
  ghost function Missing(x: seq<int>, i: nat, n: nat): int
    requires i <= n <= |x|
  {
    P(i) * P(i) * (V(x, i, n, 0) * V(x, i, n, 0))
  }

  /** Row `i` adds the square of its word and twice its products with the words above. */
  lemma MissingStep(x: seq<int>, i: nat, n: nat)
    requires i < n <= |x|
    ensures Missing(x, i, n) == P(i) * P(i) * (x[i] * x[i] + DV * (2 * x[i] * V(x, i + 1, n, 0))) + Missing(x, i + 1, n)
  {
    var d, h, p := x[i], V(x, i + 1, n, 0), P(i);
    SquareExpand(d, h);
    Expand(p * p, d * d + DV * (2 * d * h), DV * DV * (h * h));
    PowerSquare(p, h * h);
  }

  lemma SquareExpand(d: int, h: int)
    ensures (d + DV * h) * (d + DV * h) == d * d + DV * (2 * d * h) + DV * DV * (h * h)
  {}

  lemma PowerSquare(p: int, z: int)
    ensures p * p * (DV * DV * z) == (DV * p) * (DV * p) * z
  {
    assert (DV * p) * (DV * p) == DV * DV * (p * p);
    Assoc(p * p, DV * DV, z);
    Assoc(DV * DV, p * p, z);
  }

  /** The sum of the first `i` rows fits in `i + n` words and one more bit. */
  lemma SquareBound(x: seq<int>, i: nat, n: nat)
    requires i <= n && IsDigits(x, 0, n)
    ensures 0 <= V(x, 0, n, 0) * V(x, 0, n, 0) - Missing(x, i, n) < 2 * P(i + n)
  {
    var X, low, h := V(x, 0, n, 0), V(x, 0, i, 0), V(x, i, n, 0);
    VSplit(x, 0, i, n, 0);
    VTop(x, 0, i, h);
    VBound(x, 0, i);
    VBound(x, 0, n);
    VBound(x, i, n);
    PAdd(i, n);
    MulAtLeast(P(i), h, 0);
    DifferenceOfSquares(low, P(i) * h, P(i), P(n));
    SquareOfProduct(P(i), h);
  }

  lemma SquareOfProduct(p: int, h: int)
    ensures (p * h) * (p * h) == p * p * (h * h)
  {}

  lemma DifferenceOfSquares(low: int, high: int, p: int, q: int)
    requires 0 <= low < p && 0 <= high && low + high < q
    ensures 0 <= (low + high) * (low + high) - high * high < 2 * (p * q)
  {
    assert (low + high) * (low + high) - high * high == low * (low + 2 * high);
    MulBound(low, low + 2 * high, p, 2 * q - 1);
    if low + 2 * high > 0 {
      assert p * (2 * q - 1) == 2 * (p * q) - p;
    }
  }

  /** The two kernel calls of row `i`, as one. */
  lemma RowSum(w0: seq<int>, w1: seq<int>, w2: seq<int>, j: nat, e: nat, d: int, c: int, c2: int, h: int)
    requires j < e < |w0| && |w0| == |w1| == |w2|
    requires forall k :: j < k < |w0| ==> w1[k] == w0[k]
    requires w2[j] == w1[j]
    requires V(w1, j, j + 1, c) == V(w0, j, j + 1, 0) + d * d
    requires V(w2, j + 1, e, c2) == c + V(w1, j + 1, e, 0) + 2 * d * h
    ensures V(w2, j, e, c2) == V(w0, j, e, 0) + (d * d + DV * (2 * d * h))
  {
    assert V(w1, j + 1, j + 1, c) == c && V(w0, j + 1, j + 1, 0) == 0;
    VFrame(w0, w1, j + 1, e, 0);
  }

  /** Words `0..j` unchanged: what is added from `j` up counts with weight `DV^j`. */
  lemma RowWeight(w0: seq<int>, w2: seq<int>, j: nat, e: nat, top: int, c2: int, z: int)
    requires j <= e <= |w0| && e <= |w2|
    requires forall k :: 0 <= k < j ==> w2[k] == w0[k]
    requires V(w2, j, e, c2) == V(w0, j, e, 0) + z
    ensures V(w2, 0, e, top + c2) == V(w0, 0, e, top) + P(j) * z
  {
    VSplit(w0, 0, j, e, top);
    VSplit(w2, 0, j, e, top + c2);
    VFrame(w0, w2, 0, j, V(w2, j, e, top + c2));
    VTop(w2, j, e, top + c2);
    VTop(w2, j, e, c2);
    VTop(w0, j, e, top);
    Expand(P(e - j), top, c2);
    VTop(w0, 0, j, V(w2, j, e, top + c2));
    VTop(w0, 0, j, V(w0, j, e, top));
    Expand(P(j), V(w0, j, e, top), z);
  }

  /** With zeros above word `e`, the words up to `e` are the whole number. */
  lemma TopWord(w: seq<int>, e: nat, n: nat)
    requires e < n <= |w| && forall k :: e < k < n ==> w[k] == 0
    ensures V(w, 0, n, 0) == V(w, 0, e, w[e])
  {
    VSplit(w, 0, e, n, 0);
    VZeros(w, e + 1, n, 0);
  }

  /** A top word below `2*DV` is settled with one carry. */
  lemma SettleTop(u: seq<int>, w: seq<int>, e: nat, n: nat, g: int)
    requires e + 1 < n <= |w| && e <= |u|
    requires forall k :: 0 <= k < e ==> w[k] == u[k]
    requires w[e] + DV * w[e + 1] == g && forall k :: e + 1 < k < n ==> w[k] == 0
    ensures V(w, 0, n, 0) == V(u, 0, e, g)
  {
    TopWord(w, e + 1, n);
    VSnoc(u, w, 0, e, w[e + 1]);
  }

  /** The rows before `i` are done. */
  ghost predicate SquareState(x: seq<int>, n: nat, r: seq<int>, i: nat) {
    && i < n && IsDigits(x, 0, n) && IsDigits(r, 0, 2 * n)
    && (forall k :: i + n < k < 2 * n ==> r[k] == 0)
    && V(r, 0, 2 * n, 0) == V(x, 0, n, 0) * V(x, 0, n, 0) - Missing(x, i, n)
  }

  /** After the kernel calls of row `i` the top word `g` exceeds a digit by at most one bit. */
  lemma SquareTop(x: seq<int>, n: nat, w0: seq<int>, w2: seq<int>, i: nat, e: nat, c2: int)
    requires SquareState(x, n, w0, i) && e == i + n && |w2| == |w0| && IsDigits(w2, 0, e)
    requires forall k :: 0 <= k < 2 * i ==> w2[k] == w0[k]
    requires c2 >= 0
    requires V(w2, 2 * i, e, c2) == V(w0, 2 * i, e, 0) + (x[i] * x[i] + DV * (2 * x[i] * V(x, i + 1, n, 0)))
    ensures 0 <= w0[e] + c2 < 2 * DV
    ensures V(w2, 0, e, w0[e] + c2) == V(x, 0, n, 0) * V(x, 0, n, 0) - Missing(x, i + 1, n)
  {
    TopWord(w0, e, 2 * n);
    RowWeight(w0, w2, 2 * i, e, w0[e], c2, x[i] * x[i] + DV * (2 * x[i] * V(x, i + 1, n, 0)));
    PAdd(i, i);
    MissingStep(x, i, n);
    SquareBound(x, i + 1, n);
    VTop(w2, 0, e, w0[e] + c2);
    VBound(w2, 0, e);
    if w0[e] + c2 >= 2 * DV {
      MulAtLeast(P(e), w0[e] + c2, 2 * DV);
    }
  }

  /** The kernel calls of row `i`; the carry of the second one is returned. */
  method SquareRowWords(x: BigInteger, r: BigInteger, i: nat) returns (c2: int)
    requires x.WF() && r != x && i + 1 < x.t && SquareState(x.digits, x.t, r.digits, i)
    modifies r`digits
    ensures |r.digits| == |old(r.digits)| && IsDigits(r.digits, 0, i + x.t) && c2 >= 0
    ensures forall k :: 0 <= k < |r.digits| && !(2 * i <= k < i + x.t) ==> r.digits[k] == old(r.digits)[k]
    ensures 0 <= r.digits[i + x.t] + c2 < 2 * DV
    ensures V(r.digits, 0, i + x.t, r.digits[i + x.t] + c2)
         == V(x.digits, 0, x.t, 0) * V(x.digits, 0, x.t, 0) - Missing(x.digits, i + 1, x.t)
  {
    var n, e, d := x.t, i + x.t, x.digits[i];
    ghost var w0, h := r.digits, V(x.digits, i + 1, n, 0);
    assert V(x.digits, i + 1, i + 1, 0) == 0;
    var c := x.Am(i, d, r, 2 * i, 0, 1);
    ghost var w1 := r.digits;
    c2 := x.Am(i + 1, 2 * d, r, 2 * i + 1, c, n - i - 1);
    RowSum(w0, w1, r.digits, 2 * i, e, d, c, c2, h);
    SquareTop(x.digits, n, w0, r.digits, i, e, c2);
  }

  method SquareRow(x: BigInteger, r: BigInteger, i: nat)
    requires x.WF() && r != x && i + 1 < x.t && SquareState(x.digits, x.t, r.digits, i)
    modifies r`digits
    ensures SquareState(x.digits, x.t, r.digits, i + 1)
  {
    var c2 := SquareRowWords(x, r, i);
    ghost var u, g := r.digits, r.digits[i + x.t] + c2;
    r.digits := r.digits[i + x.t := r.digits[i + x.t] + c2];
    if r.digits[i + x.t] >= DV {
      r.digits := r.digits[i + x.t := r.digits[i + x.t] - DV];
      r.digits := r.digits[i + x.t + 1 := 1];
    }
    SettleTop(u, r.digits, i + x.t, 2 * x.t, g);
  }

  /** `r = this^2`. */
  method SquareTo(self: BigInteger, r: BigInteger)
    requires self.WF() && r != self
    modifies r
    ensures r.Valid() && r.Value() == self.Value() * self.Value()
  {
    var x := self.Abs();
    SignRule(self.Value(), self.Value());
    r.t := 2 * x.t;
    r.FillZero(2 * x.t);
    if x.t > 0 {
      SquareRows(x, r);
    }
    r.s := 0;
    r.Clamp();
  }

  /** The rows of `squareTo` over the zeroed words of `r`, and the last word's square on top. */
  method SquareRows(x: BigInteger, r: BigInteger)
    requires x.WF() && r != x && x.t > 0 && 2 * x.t <= |r.digits|
    requires forall k :: 0 <= k < 2 * x.t ==> r.digits[k] == 0
    modifies r`digits
    ensures IsDigits(r.digits, 0, 2 * x.t)
    ensures V(r.digits, 0, 2 * x.t, 0) == V(x.digits, 0, x.t, 0) * V(x.digits, 0, x.t, 0)
  {
    var i := 0;
    VZeros(r.digits, 0, 2 * x.t, 0);
    while i < x.t - 1
      invariant 0 <= i < x.t && SquareState(x.digits, x.t, r.digits, i)
    {
      SquareRow(x, r, i);
      i := i + 1;
    }
    LastSquare(x, r, i);
  }

  /** The square of the top word. */
  method LastSquare(x: BigInteger, r: BigInteger, i: nat)
    requires x.WF() && r != x && i + 1 == x.t && SquareState(x.digits, x.t, r.digits, i)
    modifies r`digits
    ensures IsDigits(r.digits, 0, 2 * x.t)
    ensures V(r.digits, 0, 2 * x.t, 0) == V(x.digits, 0, x.t, 0) * V(x.digits, 0, x.t, 0)
  {
    var n, e, d := x.t, i + x.t, x.digits[i];
    ghost var w0 := r.digits;
    assert V(x.digits, i + 1, i + 1, 0) == 0;
    var c2 := x.Am(i, d, r, 2 * i, 0, 1);
    SquareTop(x.digits, n, w0, r.digits, i, e, c2);
    ghost var u := r.digits;
    r.digits := r.digits[e := r.digits[e] + c2];
    VSnoc(u, r.digits, 0, e, 0);
    LastDigit(x.digits, n, u, e, r.digits[e]);
  }

  /** The whole square has `2*n` words. */
  lemma LastDigit(x: seq<int>, n: nat, u: seq<int>, e: nat, g: int)
    requires n > 0 && e + 1 == 2 * n && IsDigits(x, 0, n) && IsDigits(u, 0, e) && g >= 0
    requires V(u, 0, e, g) == V(x, 0, n, 0) * V(x, 0, n, 0)
    ensures g < DV
  {
    VBound(x, 0, n);
    PAdd(n, n);
    MulBound(V(x, 0, n, 0), V(x, 0, n, 0), P(n) - 1, P(n) - 1);
    assert (P(n) - 1) * (P(n) - 1) == P(n) * P(n) - 2 * P(n) + 1;
    VTop(u, 0, e, g);
    VBound(u, 0, e);
    if g >= DV {
      MulAtLeast(P(e), g, DV);
    }
  }
}
